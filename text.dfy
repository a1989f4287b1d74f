/** Text handling of the /feedback handler: Python's `str.strip()`, the
    whitespace collapse `re.sub(r"\s+", " ", s)` and the prefix slice `s[:n]`,
    over strings modelled as `seq<char>`. */
module Text {

  /** Python's whitespace class: the characters for which `str.isspace()` holds.
      Both `str.strip()` with no argument and `\s` in a `str` regular expression
      use exactly this set. */
  const Whitespace: set<char> := {
    '\t', '\n', '\U{0b}', '\U{0c}', '\r', '\U{1c}', '\U{1d}', '\U{1e}', '\U{1f}', ' ',
    '\U{85}', '\U{a0}', '\U{1680}',
    '\U{2000}', '\U{2001}', '\U{2002}', '\U{2003}', '\U{2004}', '\U{2005}',
    '\U{2006}', '\U{2007}', '\U{2008}', '\U{2009}', '\U{200a}',
    '\U{2028}', '\U{2029}', '\U{202f}', '\U{205f}', '\U{3000}'
  }

  predicate IsSpace(c: char) {
    c in Whitespace
  }

  ghost predicate AllSpace(s: string) {
    forall i :: 0 <= i < |s| ==> IsSpace(s[i])
  }

  /** A string in the form the collapse produces: the only whitespace character
      is the plain space, and no two spaces are adjacent. */
  ghost predicate Collapsed(s: string) {
    && (forall i :: 0 <= i < |s| && IsSpace(s[i]) ==> s[i] == ' ')
    && (forall i :: 0 <= i < |s| - 1 ==> !(s[i] == ' ' && s[i + 1] == ' '))
  }

  /** `sub` sits in `s` at offset `i`. */
  predicate OccursAt(sub: string, s: string, i: nat) {
    i + |sub| <= |s| && s[i..i + |sub|] == sub
  }

  /** The non-whitespace characters of `s`, in order. */
  function NonSpace(s: string): (r: string)
    ensures |r| <= |s|
    ensures forall i :: 0 <= i < |r| ==> !IsSpace(r[i])
  {
    if s == [] then [] else (if IsSpace(s[0]) then [] else [s[0]]) + NonSpace(s[1..])
  }

  lemma {:induction false} NonSpaceAppend(a: string, b: string)
    ensures NonSpace(a + b) == NonSpace(a) + NonSpace(b)
  {
    if a == [] {
      assert a + b == b;
    } else {
      assert (a + b)[1..] == a[1..] + b;
      NonSpaceAppend(a[1..], b);
    }
  }

  lemma {:induction false} NonSpaceOfAllSpace(s: string)
    requires AllSpace(s)
    ensures NonSpace(s) == []
  {
    if s != [] {
      NonSpaceOfAllSpace(s[1..]);
    }
  }

  /** The number of whitespace characters `s` starts with. */
  function LeadingSpace(s: string): (k: nat)
    ensures k <= |s| && AllSpace(s[..k])
    ensures k < |s| ==> !IsSpace(s[k])
  {
    if s != [] && IsSpace(s[0]) then
      var k := 1 + LeadingSpace(s[1..]);
      assert s[..k] == [s[0]] + s[1..][..k - 1];
      k
    else 0
  }

  /** The length of `s` without its trailing whitespace. */
  function ContentEnd(s: string): (j: nat)
    ensures j <= |s| && AllSpace(s[j..])
    ensures j > 0 ==> !IsSpace(s[j - 1])
  {
    if s != [] && IsSpace(s[|s| - 1]) then
      var j := ContentEnd(s[..|s| - 1]);
      assert s[j..] == s[..|s| - 1][j..] + [s[|s| - 1]];
      j
    else |s|
  }

  /** `s.lstrip()`: drops the leading whitespace. */
  function TrimStart(s: string): (r: string)
    ensures r == [] || !IsSpace(r[0])
    ensures |r| <= |s|
    ensures s == s[..|s| - |r|] + r && AllSpace(s[..|s| - |r|])
  {
    var k := LeadingSpace(s);
    assert s == s[..k] + s[k..];
    s[k..]
  }

  /** `s.strip()`: the slice of `s` left after dropping the whitespace at both
      ends. The result is empty exactly when `s` is all whitespace. */
  function Strip(s: string): (r: string)
    ensures LeadingSpace(s) + |r| <= |s|
    ensures r == s[LeadingSpace(s)..LeadingSpace(s) + |r|]
    ensures AllSpace(s[..LeadingSpace(s)]) && AllSpace(s[LeadingSpace(s) + |r|..])
    ensures r != [] ==> !IsSpace(r[0]) && !IsSpace(r[|r| - 1])
    ensures r == [] <==> AllSpace(s)
  {
    var k := LeadingSpace(s);
    var t := s[k..];
    var j := ContentEnd(t);
    var r := t[..j];
    assert r == s[k..k + j] && s[k + j..] == t[j..];
    StripEmpty(s, k, j);
    r
  }

  lemma StripEmpty(s: string, k: nat, j: nat)
    requires k <= |s| && j <= |s| - k
    requires AllSpace(s[..k]) && AllSpace(s[k + j..])
    requires k < |s| ==> !IsSpace(s[k])
    ensures j == 0 <==> AllSpace(s)
  {
    if j == 0 {
      assert k == |s|;
      forall i | 0 <= i < |s| ensures IsSpace(s[i]) {
        assert s[i] == s[..k][i];
      }
    }
  }

  lemma StripKeepsNonSpace(s: string)
    ensures NonSpace(Strip(s)) == NonSpace(s)
  {
    var r := Strip(s);
    var k := LeadingSpace(s);
    assert s == s[..k] + r + s[k + |r|..];
    NonSpaceAppend(s[..k] + r, s[k + |r|..]);
    NonSpaceAppend(s[..k], r);
    NonSpaceOfAllSpace(s[..k]);
    NonSpaceOfAllSpace(s[k + |r|..]);
  }

  lemma StripIdempotent(s: string)
    ensures Strip(Strip(s)) == Strip(s)
  {
    var r := Strip(s);
    assert LeadingSpace(r) == 0;
    assert ContentEnd(r) == |r|;
  }

  /** `re.sub(r"\s+", " ", s)`: every maximal run of whitespace becomes one
      plain space; every other character is kept. */
  function Collapse(s: string): (r: string)
    decreases |s|
    ensures |r| <= |s|
    ensures r == [] <==> s == []
    ensures r != [] ==> (r[0] == ' ' <==> IsSpace(s[0]))
    ensures Collapsed(r)
  {
    if s == [] then []
    else if IsSpace(s[0]) then
      var rest := Collapse(TrimStart(s[1..]));
      CollapsedCons(' ', rest);
      [' '] + rest
    else
      var rest := Collapse(s[1..]);
      CollapsedCons(s[0], rest);
      [s[0]] + rest
  }

  lemma CollapsedCons(c: char, rest: string)
    requires Collapsed(rest)
    requires IsSpace(c) ==> c == ' '
    requires c == ' ' && rest != [] ==> rest[0] != ' '
    ensures Collapsed([c] + rest)
  {
    var s := [c] + rest;
    forall i | 0 <= i < |s| && IsSpace(s[i]) ensures s[i] == ' ' {
      if i > 0 { assert s[i] == rest[i - 1]; }
    }
    forall i | 0 <= i < |s| - 1 ensures !(s[i] == ' ' && s[i + 1] == ' ') {
      if i > 0 { assert s[i] == rest[i - 1] && s[i + 1] == rest[i]; }
    }
  }

  lemma TrimStartKeepsNonSpace(s: string)
    ensures NonSpace(TrimStart(s)) == NonSpace(s)
  {
    var t := TrimStart(s);
    assert s == s[..|s| - |t|] + t;
    NonSpaceAppend(s[..|s| - |t|], t);
    NonSpaceOfAllSpace(s[..|s| - |t|]);
  }

  /** The collapse keeps every non-whitespace character, in order. */
  lemma {:induction false} CollapseKeepsNonSpace(s: string)
    decreases |s|
    ensures NonSpace(Collapse(s)) == NonSpace(s)
  {
    if s == [] {
    } else if IsSpace(s[0]) {
      var t := TrimStart(s[1..]);
      CollapseKeepsNonSpace(t);
      TrimStartKeepsNonSpace(s[1..]);
      assert ([' '] + Collapse(t))[1..] == Collapse(t);
    } else {
      CollapseKeepsNonSpace(s[1..]);
      assert ([s[0]] + Collapse(s[1..]))[1..] == Collapse(s[1..]);
    }
  }

  /** A string already in collapsed form is left unchanged. */
  lemma {:induction false} CollapseOfCollapsed(s: string)
    requires Collapsed(s)
    ensures Collapse(s) == s
  {
    if s != [] {
      var t := s[1..];
      assert Collapsed(t) by {
        forall i | 0 <= i < |t| && IsSpace(t[i]) ensures t[i] == ' ' { assert t[i] == s[i + 1]; }
        forall i | 0 <= i < |t| - 1 ensures !(t[i] == ' ' && t[i + 1] == ' ') {
          assert t[i] == s[i + 1] && t[i + 1] == s[i + 2];
        }
      }
      CollapseOfCollapsed(t);
      if IsSpace(s[0]) {
        assert t == [] || !IsSpace(t[0]);
        assert TrimStart(t) == t;
        assert s[0] == ' ';
      }
      assert s == [s[0]] + t;
    }
  }

  /** The strings the collapse leaves unchanged are exactly the collapsed ones. */
  lemma CollapseFixedPoints(s: string)
    ensures Collapse(s) == s <==> Collapsed(s)
  {
    if Collapsed(s) { CollapseOfCollapsed(s); }
  }

  lemma CollapseIdempotent(s: string)
    ensures Collapse(Collapse(s)) == Collapse(s)
  {
    CollapseOfCollapsed(Collapse(s));
  }

  lemma CollapsedPrefix(s: string, n: nat)
    requires Collapsed(s) && n <= |s|
    ensures Collapsed(s[..n])
  {
    var p := s[..n];
    forall i | 0 <= i < |p| && IsSpace(p[i]) ensures p[i] == ' ' { assert p[i] == s[i]; }
    forall i | 0 <= i < |p| - 1 ensures !(p[i] == ' ' && p[i + 1] == ' ') {
      assert p[i] == s[i] && p[i + 1] == s[i + 1];
    }
  }

  /** The end of the leading whitespace is the first non-whitespace position. */
  lemma {:induction false} LeadingSpaceUnique(s: string, k: nat)
    requires k <= |s| && AllSpace(s[..k])
    requires k < |s| ==> !IsSpace(s[k])
    ensures LeadingSpace(s) == k
  {
    if s != [] && IsSpace(s[0]) {
      assert k >= 1;
      assert s[1..][..k - 1] == s[..k][1..];
      LeadingSpaceUnique(s[1..], k - 1);
    }
  }

  /** Trimming a concatenation: whitespace is dropped from `b` only when all of
      `a` is whitespace. */
  lemma TrimStartAppend(a: string, b: string)
    ensures !AllSpace(a) ==> TrimStart(a + b) == TrimStart(a) + b
    ensures AllSpace(a) ==> TrimStart(a + b) == TrimStart(b)
  {
    var s := a + b;
    var k := LeadingSpace(a);
    if !AllSpace(a) {
      assert k < |a|;
      assert s[..k] == a[..k] && s[k] == a[k];
      LeadingSpaceUnique(s, k);
      assert s[k..] == a[k..] + b;
    } else {
      var kb := LeadingSpace(b);
      var p := s[..|a| + kb];
      forall i | 0 <= i < |p| ensures IsSpace(p[i]) {
        if i >= |a| { assert p[i] == b[..kb][i - |a|]; }
      }
      assert |a| + kb < |s| ==> s[|a| + kb] == b[kb];
      LeadingSpaceUnique(s, |a| + kb);
      assert s[|a| + kb..] == b[kb..];
    }
  }

  lemma TrimStartOfAllSpace(s: string)
    requires AllSpace(s)
    ensures TrimStart(s) == []
  {
    assert s[..|s|] == s;
    LeadingSpaceUnique(s, |s|);
  }

  /** A run of whitespace, however long and of whatever kinds, becomes one space. */
  lemma CollapseRun(w: string)
    requires w != [] && AllSpace(w)
    ensures Collapse(w) == " "
  {
    TrimStartOfAllSpace(w[1..]);
  }

  /** A non-whitespace character is kept as it is. */
  lemma CollapseKeepsChar(c: char)
    requires !IsSpace(c)
    ensures Collapse([c]) == [c]
  {
    assert [c][1..] == [];
  }

  /** A whitespace run followed by a non-whitespace character collapses to one
      space in front of the rest. */
  lemma CollapseRunThen(w: string, b: string)
    requires w != [] && AllSpace(w)
    requires b != [] && !IsSpace(b[0])
    ensures Collapse(w + b) == " " + Collapse(b)
  {
    assert (w + b)[1..] == w[1..] + b;
    TrimStartAppend(w[1..], b);
    assert TrimStart(b) == b by {
      LeadingSpaceUnique(b, 0);
    }
  }

  /** One step of the collapse on `a + b` when `a` starts with whitespace but is
      not all whitespace: the run ends inside `a`. */
  lemma CollapseSpaceHead(a: string, b: string) returns (u: string)
    requires a != [] && IsSpace(a[0]) && !AllSpace(a)
    ensures u != [] && |u| < |a| && u[|u| - 1] == a[|a| - 1]
    ensures Collapse(a) == " " + Collapse(u)
    ensures Collapse(a + b) == " " + Collapse(u + b)
  {
    var t := a[1..];
    assert !AllSpace(t);
    assert (a + b)[1..] == t + b;
    TrimStartAppend(t, b);
    u := TrimStart(t);
    assert t == t[..|t| - |u|] + u;
  }

  /** One step of the collapse on `a + b` when `a` starts with a non-whitespace
      character. */
  lemma CollapseCharHead(a: string, b: string)
    requires a != [] && !IsSpace(a[0])
    ensures Collapse(a) == [a[0]] + Collapse(a[1..])
    ensures Collapse(a + b) == [a[0]] + Collapse(a[1..] + b)
  {
    assert (a + b)[1..] == a[1..] + b;
  }

  /** The collapse works piecewise: a string cut where no whitespace run is
      split collapses to the two collapsed pieces, one after the other. */
  lemma {:induction false} CollapseSplit(a: string, b: string)
    requires a == [] || b == [] || !IsSpace(a[|a| - 1]) || !IsSpace(b[0])
    decreases |a|
    ensures Collapse(a + b) == Collapse(a) + Collapse(b)
  {
    if a == [] {
      assert a + b == b;
    } else if b == [] {
      assert a + b == a;
    } else if AllSpace(a) {
      CollapseRun(a);
      CollapseRunThen(a, b);
    } else if IsSpace(a[0]) {
      var u := CollapseSpaceHead(a, b);
      CollapseSplit(u, b);
      assert " " + (Collapse(u) + Collapse(b)) == (" " + Collapse(u)) + Collapse(b);
    } else {
      CollapseCharHead(a, b);
      assert a[1..] != [] ==> a[1..][|a| - 2] == a[|a| - 1];
      CollapseSplit(a[1..], b);
      assert [a[0]] + (Collapse(a[1..]) + Collapse(b)) == ([a[0]] + Collapse(a[1..])) + Collapse(b);
    }
  }

  /** The slice `s[:n]` for a non-negative `n`: the first `n` characters, or all
      of `s` when it is shorter. */
  function Prefix(s: string, n: nat): (r: string)
    ensures |r| == if |s| <= n then |s| else n
    ensures r <= s
  {
    if |s| <= n then s else s[..n]
  }

  /** `re.sub(r"\s+", " ", s)[:n]`: collapse, then cut to at most `n` characters. */
  function Sanitize(s: string, n: nat): (r: string)
    ensures |r| <= n
    ensures |Collapse(s)| <= n ==> r == Collapse(s)
    ensures |Collapse(s)| > n ==> |r| == n
    ensures r <= Collapse(s)
    ensures Collapsed(r)
    ensures r != [] ==> (r[0] == ' ' <==> IsSpace(s[0]))
  {
    var c := Collapse(s);
    var r := Prefix(c, n);
    assert r == c[..|r|];
    CollapsedPrefix(c, |r|);
    r
  }

  /** The non-whitespace characters of the sanitised text are a prefix of
      those of the input, and all of them when nothing was cut off. */
  lemma SanitizeKeepsNonSpace(s: string, n: nat)
    ensures NonSpace(Sanitize(s, n)) <= NonSpace(s)
    ensures |Collapse(s)| <= n ==> NonSpace(Sanitize(s, n)) == NonSpace(s)
  {
    var c := Collapse(s);
    var r := Sanitize(s, n);
    assert c == r + c[|r|..];
    NonSpaceAppend(r, c[|r|..]);
    CollapseKeepsNonSpace(s);
  }

  /** Sanitising a stripped, non-empty text never yields a leading space. */
  lemma SanitizeStrippedHasNoLeadingSpace(s: string, n: nat)
    ensures Sanitize(Strip(s), n) == [] || Sanitize(Strip(s), n)[0] != ' '
  {
  }

  lemma SanitizeIdempotent(s: string, n: nat)
    ensures Sanitize(Sanitize(s, n), n) == Sanitize(s, n)
  {
    var r := Sanitize(s, n);
    CollapseOfCollapsed(r);
  }

  /** `p` repeated `k` times. */
  function Repeat(p: string, k: nat): (r: string)
    ensures |r| == k * |p|
  {
    if k == 0 then [] else p + Repeat(p, k - 1)
  }

  lemma {:induction false} RepeatPairAt(k: nat, i: nat)
    requires i < 2 * k
    ensures Repeat("a ", k)[i] == if i % 2 == 0 then 'a' else ' '
  {
    if i >= 2 {
      RepeatPairAt(k - 1, i - 2);
    }
  }

  lemma RepeatPairCollapsed(k: nat)
    ensures Collapsed(Repeat("a ", k))
  {
    var s := Repeat("a ", k);
    forall i | 0 <= i < |s| && IsSpace(s[i]) ensures s[i] == ' ' { RepeatPairAt(k, i); }
    forall i | 0 <= i < |s| - 1 ensures !(s[i] == ' ' && s[i + 1] == ' ') {
      RepeatPairAt(k, i);
      RepeatPairAt(k, i + 1);
    }
  }

  lemma RepeatPairPrefix(k: nat, j: nat)
    requires j <= k
    ensures Repeat("a ", k)[..2 * j] == Repeat("a ", j)
  {
    var s := Repeat("a ", k);
    var t := Repeat("a ", j);
    forall i | 0 <= i < 2 * j ensures s[..2 * j][i] == t[i] {
      RepeatPairAt(k, i);
      RepeatPairAt(j, i);
    }
  }

  /** 10,000 copies of "a " collapse to themselves and are cut to exactly 4000
      characters: 2000 copies of "a ". */
  lemma SanitizeRepeatedPairs()
    ensures Sanitize(Repeat("a ", 10000), 4000) == Repeat("a ", 2000)
  {
    RepeatPairCollapsed(10000);
    CollapseOfCollapsed(Repeat("a ", 10000));
    RepeatPairPrefix(10000, 2000);
  }
}
