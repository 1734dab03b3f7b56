/** The string primitives the script relies on (`includes`, `indexOf`,
    `split`, `join`, `trim`, global regular-expression replacement),
    defined on `seq<char>` with the properties the rest of the model uses. */
module Text {
  import opened Wrappers

  /** White space and line terminators, the characters JavaScript's `\s`
      and `String.prototype.trim` treat as space. */
  predicate IsSpace(c: char) {
    || c == '\t' || c == '\n' || c == '\U{B}' || c == '\U{C}' || c == '\r'
    || c == ' ' || c == '\U{A0}' || c == '\U{1680}'
    || ('\U{2000}' <= c <= '\U{200A}')
    || c == '\U{2028}' || c == '\U{2029}' || c == '\U{202F}' || c == '\U{205F}'
    || c == '\U{3000}' || c == '\U{FEFF}'
  }

  predicate AllSpace(s: string) {
    forall k :: 0 <= k < |s| ==> IsSpace(s[k])
  }

  predicate StartsWith(s: string, prefix: string) {
    |prefix| <= |s| && s[..|prefix|] == prefix
  }

  /** `s.endsWith(c)` for a one-character argument. */
  predicate EndsWith(s: string, c: char) {
    |s| > 0 && s[|s| - 1] == c
  }

  /** `t` occurs in `s` at position `i`. */
  predicate OccursAt(s: string, t: string, i: int) {
    0 <= i <= |s| - |t| && s[i..i + |t|] == t
  }

  /** `s.includes(t)`. */
  predicate Contains(s: string, t: string) {
    exists i | 0 <= i <= |s| - |t| :: OccursAt(s, t, i)
  }

  /** A string cannot contain a pattern whose first character it lacks. */
  lemma NotContainsFirst(s: string, t: string)
    requires |t| > 0 && t[0] !in s
    ensures !Contains(s, t)
  {
    forall i | 0 <= i <= |s| - |t|
      ensures !OccursAt(s, t, i)
    {
      assert s[i..i + |t|][0] == s[i];
    }
  }

  /** The number of occurrences of `c` in `s`: the length of `s.match(/c/g) || []`. */
  function Count(s: string, c: char): (n: nat)
    ensures n <= |s|
    ensures n == 0 <==> c !in s
  {
    if s == [] then 0 else (if s[0] == c then 1 else 0) + Count(s[1..], c)
  }

  lemma {:induction false} CountAppend(a: string, b: string, c: char)
    ensures Count(a + b, c) == Count(a, c) + Count(b, c)
  {
    if a == [] {
      assert a + b == b;
    } else {
      assert (a + b)[0] == a[0];
      assert (a + b)[1..] == a[1..] + b;
      CountAppend(a[1..], b, c);
    }
  }

  /** `k` copies of `c`. */
  function Repeat(c: char, k: nat): (r: string)
    ensures |r| == k
    ensures forall i :: 0 <= i < k ==> r[i] == c
  {
    seq(k, _ => c)
  }

  lemma {:induction false} CountRepeat(c: char, d: char, k: nat)
    ensures Count(Repeat(c, k), d) == if c == d then k else 0
  {
    if k > 0 {
      assert Repeat(c, k)[1..] == Repeat(c, k - 1);
      CountRepeat(c, d, k - 1);
    }
  }

  /** `s.indexOf(c)`: the first position of `c`, if any. */
  function IndexOf(s: string, c: char): (r: Option<nat>)
    ensures r.None? <==> c !in s
    ensures r.Some? ==> r.value < |s| && s[r.value] == c && c !in s[..r.value]
  {
    if s == [] then None
    else if s[0] == c then Some(0)
    else match IndexOf(s[1..], c)
      case None => None
      case Some(i) =>
        assert s[..i + 1] == [s[0]] + s[1..][..i];
        Some(i + 1)
  }

  /** `s.lastIndexOf(c)`: the last position of `c`, if any. */
  function LastIndexOf(s: string, c: char): (r: Option<nat>)
    ensures r.None? <==> c !in s
    ensures r.Some? ==> r.value < |s| && s[r.value] == c && c !in s[r.value + 1..]
  {
    if s == [] then None
    else if s[|s| - 1] == c then Some(|s| - 1)
    else
      var init := s[..|s| - 1];
      assert s == init + [s[|s| - 1]];
      LastIndexOf(init, c)
  }

  /** The end of the run of space that starts at index `i`. */
  function SpaceRunEnd(s: string, i: nat): (j: nat)
    requires i <= |s|
    ensures i <= j <= |s|
    decreases |s| - i
  {
    if i < |s| && IsSpace(s[i]) then SpaceRunEnd(s, i + 1) else i
  }

  /** The run from `i` to its end is all space and is maximal. */
  lemma {:induction false} SpaceRunEndSpec(s: string, i: nat)
    requires i <= |s|
    ensures forall k :: i <= k < SpaceRunEnd(s, i) ==> IsSpace(s[k])
    ensures SpaceRunEnd(s, i) < |s| ==> !IsSpace(s[SpaceRunEnd(s, i)])
    decreases |s| - i
  {
    if i < |s| && IsSpace(s[i]) {
      SpaceRunEndSpec(s, i + 1);
    }
  }

  /** The start of the run of space that ends just before index `j`. */
  function SpaceRunStart(s: string, j: nat): (i: nat)
    requires j <= |s|
    ensures i <= j
  {
    if j > 0 && IsSpace(s[j - 1]) then SpaceRunStart(s, j - 1) else j
  }

  /** The run from its start to `j` is all space and is maximal. */
  lemma {:induction false} SpaceRunStartSpec(s: string, j: nat)
    requires j <= |s|
    ensures forall k :: SpaceRunStart(s, j) <= k < j ==> IsSpace(s[k])
    ensures SpaceRunStart(s, j) > 0 ==> !IsSpace(s[SpaceRunStart(s, j) - 1])
  {
    if j > 0 && IsSpace(s[j - 1]) {
      SpaceRunStartSpec(s, j - 1);
    }
  }

  /** `s.trimStart()`. */
  function TrimStart(s: string): string {
    s[SpaceRunEnd(s, 0)..]
  }

  /** `s.trimEnd()`. */
  function TrimEnd(s: string): string {
    s[..SpaceRunStart(s, |s|)]
  }

  /** `s.trim()`. */
  function Trim(s: string): string {
    TrimEnd(TrimStart(s))
  }

  /** Trimming the front cuts only space, and what is left does not start
      with space. */
  lemma TrimStartSpec(s: string)
    ensures |TrimStart(s)| <= |s| && TrimStart(s) == s[|s| - |TrimStart(s)|..]
    ensures forall k :: 0 <= k < |s| - |TrimStart(s)| ==> IsSpace(s[k])
    ensures TrimStart(s) != [] ==> !IsSpace(TrimStart(s)[0])
  {
    SpaceRunEndSpec(s, 0);
  }

  /** Trimming the front keeps every occurrence of a character that is not space. */
  lemma TrimStartKeepsCount(s: string, c: char)
    requires !IsSpace(c)
    ensures Count(TrimStart(s), c) == Count(s, c)
  {
    var i := SpaceRunEnd(s, 0);
    SpaceRunEndSpec(s, 0);
    assert s == s[..i] + s[i..];
    CountAppend(s[..i], s[i..], c);
    assert c !in s[..i];
  }

  /** The trimmed string is an infix of `s` with no space at either end, and
      only space was cut away. */
  lemma TrimSpec(s: string) returns (i: nat)
    ensures i + |Trim(s)| <= |s| && Trim(s) == s[i..i + |Trim(s)|]
    ensures forall k :: 0 <= k < i ==> IsSpace(s[k])
    ensures forall k :: i + |Trim(s)| <= k < |s| ==> IsSpace(s[k])
    ensures Trim(s) != [] ==> !IsSpace(Trim(s)[0]) && !IsSpace(Trim(s)[|Trim(s)| - 1])
  {
    i := SpaceRunEnd(s, 0);
    SpaceRunEndSpec(s, 0);
    var t := s[i..];
    var j := SpaceRunStart(t, |t|);
    SpaceRunStartSpec(t, |t|);
    assert Trim(s) == t[..j] == s[i..i + j];
    forall k | i + j <= k < |s| ensures IsSpace(s[k]) {
      assert s[k] == t[k - i];
    }
    if j > 0 {
      assert t[0] == s[i];
    }
  }

  /** A string that does not end with space keeps its last character. */
  lemma TrimKeepsLast(s: string)
    requires s != [] && !IsSpace(s[|s| - 1])
    ensures Trim(s) != [] && Trim(s)[|Trim(s)| - 1] == s[|s| - 1]
  {
    var i := SpaceRunEnd(s, 0);
    SpaceRunEndSpec(s, 0);
    assert i < |s|;
    var t := s[i..];
    assert t[|t| - 1] == s[|s| - 1];
    assert SpaceRunStart(t, |t|) == |t|;
  }

  /** The characters of `s` that are not space, in order. */
  function NonSpace(s: string): string {
    if s == [] then [] else (if IsSpace(s[0]) then [] else [s[0]]) + NonSpace(s[1..])
  }

  lemma {:induction false} NonSpaceAppend(a: string, b: string)
    ensures NonSpace(a + b) == NonSpace(a) + NonSpace(b)
  {
    if a == [] {
      assert a + b == b;
    } else {
      assert (a + b)[1..] == a[1..] + b;
      NonSpaceAppend(a[1..], b);
    }
  }

  lemma {:induction false} NonSpaceOfSpace(s: string)
    requires AllSpace(s)
    ensures NonSpace(s) == []
  {
    if s != [] {
      assert AllSpace(s[1..]) by {
        forall k | 0 <= k < |s| - 1 ensures IsSpace(s[1..][k]) {
          assert s[1..][k] == s[k + 1];
        }
      }
      NonSpaceOfSpace(s[1..]);
    }
  }

  /** Trimming the front cuts only space. */
  lemma TrimStartKeepsNonSpace(s: string)
    ensures NonSpace(TrimStart(s)) == NonSpace(s)
  {
    var i := SpaceRunEnd(s, 0);
    SpaceRunEndSpec(s, 0);
    assert s == s[..i] + s[i..];
    assert AllSpace(s[..i]) by {
      forall k | 0 <= k < i ensures IsSpace(s[..i][k]) {
        assert s[..i][k] == s[k];
      }
    }
    NonSpaceOfSpace(s[..i]);
    NonSpaceAppend(s[..i], s[i..]);
  }

  /** Trimming cuts only space: every other character is kept, in order. */
  lemma TrimKeepsNonSpace(s: string)
    ensures NonSpace(Trim(s)) == NonSpace(s)
  {
    var i := TrimSpec(s);
    var t := Trim(s);
    var j := i + |t|;
    assert s == s[..i] + t + s[j..];
    assert AllSpace(s[..i]) by {
      forall k | 0 <= k < i ensures IsSpace(s[..i][k]) {
        assert s[..i][k] == s[k];
      }
    }
    assert AllSpace(s[j..]) by {
      forall k | 0 <= k < |s| - j ensures IsSpace(s[j..][k]) {
        assert s[j..][k] == s[j + k];
      }
    }
    NonSpaceOfSpace(s[..i]);
    NonSpaceOfSpace(s[j..]);
    NonSpaceAppend(s[..i] + t, s[j..]);
    NonSpaceAppend(s[..i], t);
  }

  /** The words of `s`: its maximal runs of characters that are not space,
      in order. */
  function Words(s: string): (r: seq<string>)
    ensures s != [] && !IsSpace(s[0]) ==> r != []
    decreases |s|
  {
    if s == [] then []
    else if IsSpace(s[0]) then Words(s[1..])
    else
      var rest := Words(s[1..]);
      if |s| > 1 && !IsSpace(s[1]) then [[s[0]] + rest[0]] + rest[1..]
      else [[s[0]]] + rest
  }

  /** Words tell a gap from none: `a b` has two words, `ab` has one. */
  lemma WordsSeeGaps()
    ensures Words("a b") == ["a", "b"]
    ensures Words("ab") == ["ab"]
  {
    assert "a b"[1..] == " b" && " b"[1..] == "b" && "b"[1..] == [];
    assert "ab"[1..] == "b";
    assert Words("b") == ["b"];
    assert ['a'] + "b" == "ab";
  }

  /** `ws.join('')`. */
  function Concat(ws: seq<string>): string {
    if ws == [] then [] else ws[0] + Concat(ws[1..])
  }

  /** Every word is a non-empty run without space, and together the words
      are the characters that are not space. */
  lemma {:induction false} WordsSpec(s: string)
    ensures forall k :: 0 <= k < |Words(s)| ==> Words(s)[k] != [] && NonSpace(Words(s)[k]) == Words(s)[k]
    ensures Concat(Words(s)) == NonSpace(s)
  {
    WordsShape(s);
    WordsConcat(s);
  }

  lemma {:induction false} WordsShape(s: string)
    ensures forall k :: 0 <= k < |Words(s)| ==> Words(s)[k] != [] && NonSpace(Words(s)[k]) == Words(s)[k]
    decreases |s|
  {
    if s != [] && !IsSpace(s[0]) {
      WordsShape(s[1..]);
      var rest := Words(s[1..]);
      assert NonSpace([s[0]]) == [s[0]];
      if |s| > 1 && !IsSpace(s[1]) {
        NonSpaceAppend([s[0]], rest[0]);
        assert Words(s) == [[s[0]] + rest[0]] + rest[1..];
      } else {
        assert Words(s) == [[s[0]]] + rest;
      }
    } else if s != [] {
      WordsShape(s[1..]);
    }
  }

  lemma {:induction false} WordsConcat(s: string)
    ensures Concat(Words(s)) == NonSpace(s)
    decreases |s|
  {
    if s != [] {
      WordsConcat(s[1..]);
      var rest := Words(s[1..]);
      if !IsSpace(s[0]) {
        if |s| > 1 && !IsSpace(s[1]) {
          var ws := Words(s);
          assert ws == [[s[0]] + rest[0]] + rest[1..];
          assert ws[1..] == rest[1..];
          assert Concat(rest) == rest[0] + Concat(rest[1..]);
          assert Concat(ws) == [s[0]] + rest[0] + Concat(rest[1..]);
        } else {
          assert Words(s)[1..] == rest;
        }
      }
    }
  }

  lemma {:induction false} WordsSpacePrefix(p: string, y: string)
    requires AllSpace(p)
    ensures Words(p + y) == Words(y)
    decreases |p|
  {
    if p == [] {
      assert p + y == y;
    } else {
      assert (p + y)[1..] == p[1..] + y;
      assert AllSpace(p[1..]) by {
        forall k | 0 <= k < |p| - 1 ensures IsSpace(p[1..][k]) {
          assert p[1..][k] == p[k + 1];
        }
      }
      WordsSpacePrefix(p[1..], y);
    }
  }

  lemma {:induction false} WordsSpaceSuffix(y: string, q: string)
    requires AllSpace(q)
    ensures Words(y + q) == Words(y)
    decreases |y|
  {
    if y == [] {
      assert y + q == q + [];
      WordsSpacePrefix(q, []);
    } else {
      assert (y + q)[1..] == y[1..] + q;
      WordsSpaceSuffix(y[1..], q);
      if |y| > 1 {
        assert (y + q)[1] == y[1];
      } else if q != [] {
        assert (y + q)[1] == q[0];
      }
    }
  }

  /** Trimming the front keeps the words. */
  lemma TrimStartKeepsWords(s: string)
    ensures Words(TrimStart(s)) == Words(s)
  {
    var i := SpaceRunEnd(s, 0);
    SpaceRunEndSpec(s, 0);
    assert s == s[..i] + s[i..];
    assert AllSpace(s[..i]) by {
      forall k | 0 <= k < i ensures IsSpace(s[..i][k]) {
        assert s[..i][k] == s[k];
      }
    }
    WordsSpacePrefix(s[..i], s[i..]);
  }

  /** Trimming keeps the words. */
  lemma TrimKeepsWords(s: string)
    ensures Words(Trim(s)) == Words(s)
  {
    var i := TrimSpec(s);
    var t := Trim(s);
    var j := i + |t|;
    assert s == s[..i] + (t + s[j..]);
    assert AllSpace(s[..i]) by {
      forall k | 0 <= k < i ensures IsSpace(s[..i][k]) {
        assert s[..i][k] == s[k];
      }
    }
    assert AllSpace(s[j..]) by {
      forall k | 0 <= k < |s| - j ensures IsSpace(s[j..][k]) {
        assert s[j..][k] == s[j + k];
      }
    }
    WordsSpacePrefix(s[..i], t + s[j..]);
    WordsSpaceSuffix(t, s[j..]);
  }

  /** `parts.join(sep)`. */
  function Join(parts: seq<string>, sep: string): string {
    if |parts| == 0 then ""
    else if |parts| == 1 then parts[0]
    else parts[0] + sep + Join(parts[1..], sep)
  }

  /** An occurrence survives putting text on either side. */
  lemma OccursInContext(a: string, b: string, c: string, t: string, i: int)
    requires OccursAt(b, t, i)
    ensures OccursAt(a + b + c, t, |a| + i)
  {
    assert (a + b + c)[|a| + i..|a| + i + |t|] == b[i..i + |t|];
  }

  /** A prefix lacking the pattern's first character neither holds nor
      straddles an occurrence of it. */
  lemma ContainsPastPrefix(p: string, s: string, t: string)
    requires |t| > 0 && t[0] !in p
    ensures Contains(p + s, t) <==> Contains(s, t)
  {
    if Contains(s, t) {
      var i :| 0 <= i <= |s| - |t| && OccursAt(s, t, i);
      OccursInContext(p, s, [], t, i);
      assert p + s + [] == p + s;
    }
    if Contains(p + s, t) {
      var i :| 0 <= i <= |p + s| - |t| && OccursAt(p + s, t, i);
      assert (p + s)[i] == t[0];
      assert forall j :: 0 <= j < |p| ==> (p + s)[j] == p[j];
      assert i >= |p|;
      assert s[i - |p|..i - |p| + |t|] == (p + s)[i..i + |t|];
      assert OccursAt(s, t, i - |p|);
    }
  }

  /** `includes` is transitive. */
  lemma ContainsTrans(s: string, u: string, t: string)
    requires Contains(s, u) && Contains(u, t)
    ensures Contains(s, t)
  {
    var i :| 0 <= i <= |s| - |u| && OccursAt(s, u, i);
    var j :| 0 <= j <= |u| - |t| && OccursAt(u, t, j);
    OccursInContext(s[..i], u, s[i + |u|..], t, j);
    assert s[..i] + u + s[i + |u|..] == s;
  }

  /** Every piece of a join occurs in it. */
  lemma {:induction false} JoinContainsPart(parts: seq<string>, sep: string, k: int)
    requires 0 <= k < |parts|
    ensures Contains(Join(parts, sep), parts[k])
  {
    if |parts| == 1 {
      OccursInContext([], parts[0], [], parts[0], 0);
      assert [] + parts[0] + [] == parts[0];
    } else if k == 0 {
      OccursInContext([], parts[0], sep + Join(parts[1..], sep), parts[0], 0);
      assert [] + parts[0] + (sep + Join(parts[1..], sep)) == Join(parts, sep);
    } else {
      JoinContainsPart(parts[1..], sep, k - 1);
      var rest := Join(parts[1..], sep);
      var j :| 0 <= j <= |rest| - |parts[k]| && OccursAt(rest, parts[k], j);
      OccursInContext(parts[0] + sep, rest, [], parts[k], j);
      assert parts[0] + sep + rest + [] == Join(parts, sep);
    }
  }

  /** A join holds the separator only where the parts or the separator put it. */
  lemma {:induction false} JoinAvoids(parts: seq<string>, sep: string, c: char)
    requires c !in sep
    requires forall i :: 0 <= i < |parts| ==> c !in parts[i]
    ensures c !in Join(parts, sep)
  {
    if |parts| > 1 {
      JoinAvoids(parts[1..], sep, c);
    }
  }

  /** `s.split(sep)` for a one-character separator: the maximal
      separator-free pieces, in order; always at least one piece. */
  function Split(s: string, sep: char): (r: seq<string>)
    ensures |r| >= 1
  {
    if s == [] then [""]
    else
      var rest := Split(s[1..], sep);
      if s[0] == sep then [""] + rest
      else [[s[0]] + rest[0]] + rest[1..]
  }

  /** No piece of a split holds the separator. */
  lemma {:induction false} SplitPiecesLackSep(s: string, sep: char)
    ensures forall i :: 0 <= i < |Split(s, sep)| ==> sep !in Split(s, sep)[i]
  {
    if s != [] {
      SplitPiecesLackSep(s[1..], sep);
      var rest := Split(s[1..], sep);
      var r := Split(s, sep);
      if s[0] == sep {
        assert r == [""] + rest;
        forall i | 0 < i < |r| ensures sep !in r[i] {
          assert r[i] == rest[i - 1];
        }
      } else {
        assert r == [[s[0]] + rest[0]] + rest[1..];
        forall i | 0 < i < |r| ensures sep !in r[i] {
          assert r[i] == rest[i];
        }
      }
    }
  }

  /** Joining the pieces of a split with the separator gives the string back. */
  lemma {:induction false} SplitJoinsBack(s: string, sep: char)
    ensures Join(Split(s, sep), [sep]) == s
  {
    if s != [] {
      SplitJoinsBack(s[1..], sep);
      var rest := Split(s[1..], sep);
      if s[0] == sep {
        assert Join([""] + rest, [sep]) == [sep] + Join(rest, [sep]);
      } else {
        var r := [[s[0]] + rest[0]] + rest[1..];
        assert Join(r, [sep]) == [s[0]] + Join(rest, [sep]) by {
          if |rest| > 1 {
            assert r[1..] == rest[1..];
          }
        }
      }
    }
  }

  /** Splitting after a separator-free piece and a separator. */
  lemma {:induction false} SplitPrefix(a: string, sep: char, rest: string)
    requires sep !in a
    ensures Split(a + [sep] + rest, sep) == [a] + Split(rest, sep)
  {
    if a == [] {
      assert ([sep] + rest)[1..] == rest;
    } else {
      var s := a + [sep] + rest;
      assert s[0] == a[0] && s[1..] == a[1..] + [sep] + rest;
      SplitPrefix(a[1..], sep, rest);
      assert [a[0]] + a[1..] == a;
    }
  }

  /** Splitting a joined list gives the list back, when no piece holds the separator. */
  lemma {:induction false} SplitJoin(parts: seq<string>, sep: char)
    requires |parts| >= 1
    requires forall i :: 0 <= i < |parts| ==> sep !in parts[i]
    ensures Split(Join(parts, [sep]), sep) == parts
  {
    if |parts| == 1 {
      SplitNoSep(parts[0], sep);
    } else {
      SplitJoin(parts[1..], sep);
      SplitPrefix(parts[0], sep, Join(parts[1..], [sep]));
    }
  }

  lemma {:induction false} SplitNoSep(s: string, sep: char)
    requires sep !in s
    ensures Split(s, sep) == [s]
  {
    if s != [] {
      SplitNoSep(s[1..], sep);
      assert [s[0]] + s[1..] == s;
    }
  }

  /** The last element of a non-empty sequence. */
  function Last<T>(xs: seq<T>): T
    requires |xs| > 0
  {
    xs[|xs| - 1]
  }

  /** The last line of `s`: `s.split('\n')` at its last index. */
  function LastLine(s: string): string {
    Last(Split(s, '\n'))
  }

  /** The last piece of a split is the last piece of the split of the tail,
      unless the head starts the only piece. */
  lemma SplitLastOfTail(s: string, sep: char)
    requires s != []
    ensures var rest := Split(s[1..], sep);
      Last(Split(s, sep)) == if s[0] != sep && |rest| == 1 then [s[0]] + rest[0] else Last(rest)
  {
    var rest := Split(s[1..], sep);
    var r := Split(s, sep);
    if s[0] == sep {
      assert r == [""] + rest;
      assert r[|r| - 1] == rest[|rest| - 1];
    } else {
      assert r == [[s[0]] + rest[0]] + rest[1..];
      assert |r| == |rest|;
      if |rest| > 1 {
        assert r[|r| - 1] == rest[1..][|rest| - 2];
      }
    }
  }

  /** The last piece of a split is a suffix of the string. */
  lemma {:induction false} SplitLastIsSuffix(s: string, sep: char)
    ensures |Last(Split(s, sep))| <= |s|
    ensures Last(Split(s, sep)) == s[|s| - |Last(Split(s, sep))|..]
  {
    if s != [] {
      var rest := Split(s[1..], sep);
      SplitLastOfTail(s, sep);
      if s[0] != sep && |rest| == 1 {
        SplitSingle(s[1..], sep);
        assert [s[0]] + s[1..] == s;
      } else {
        SplitLastIsSuffix(s[1..], sep);
        var last := Last(rest);
        assert s[1..][|s[1..]| - |last|..] == s[|s| - |last|..];
      }
    }
  }

  /** A split into a single piece leaves the string whole. */
  lemma SplitSingle(s: string, sep: char)
    requires |Split(s, sep)| == 1
    ensures Split(s, sep)[0] == s
  {
    SplitJoinsBack(s, sep);
    assert Join(Split(s, sep), [sep]) == Split(s, sep)[0];
  }

  /** The last piece of a split ends with the string's last character, unless
      that character is the separator. */
  lemma {:induction false} SplitLastKeepsEnd(s: string, sep: char)
    requires s != [] && s[|s| - 1] != sep
    ensures Last(Split(s, sep)) != [] && Last(Last(Split(s, sep))) == s[|s| - 1]
  {
    var rest := Split(s[1..], sep);
    SplitLastOfTail(s, sep);
    if s[0] != sep && |rest| == 1 {
      SplitSingle(s[1..], sep);
      assert [s[0]] + s[1..] == s;
    } else {
      SplitLastKeepsEnd(s[1..], sep);
    }
  }

  /** The decimal numeral of `n`, as template literals print integers. */
  function NatToString(n: nat): (r: string)
    ensures |r| >= 1
    ensures forall k :: 0 <= k < |r| ==> '0' <= r[k] <= '9'
  {
    var d := ['0', '1', '2', '3', '4', '5', '6', '7', '8', '9'];
    if n < 10 then [d[n]] else NatToString(n / 10) + [d[n % 10]]
  }

  /** `s.replace(/pattern/g, '')` for a literal pattern: occurrences are
      found left to right without overlap and removed. */
  function RemoveAll(s: string, pattern: string): string
    requires |pattern| > 0
  {
    if s == [] then []
    else if StartsWith(s, pattern) then RemoveAll(s[|pattern|..], pattern)
    else [s[0]] + RemoveAll(s[1..], pattern)
  }

  /** A text in which the pattern does not occur is left as it is. */
  lemma {:induction false} RemoveAllIdle(s: string, pattern: string)
    requires |pattern| > 0 && !Contains(s, pattern)
    ensures RemoveAll(s, pattern) == s
    decreases |s|
  {
    if s != [] {
      assert !OccursAt(s, pattern, 0);
      assert !Contains(s[1..], pattern) by {
        if Contains(s[1..], pattern) {
          var i :| 0 <= i <= |s[1..]| - |pattern| && OccursAt(s[1..], pattern, i);
          assert s[i + 1..i + 1 + |pattern|] == s[1..][i..i + |pattern|];
          assert OccursAt(s, pattern, i + 1);
        }
      }
      RemoveAllIdle(s[1..], pattern);
    }
  }

  /** Removal deletes whole occurrences: the text loses `n` copies' worth of
      characters, and every character left comes from the text. */
  lemma {:induction false} RemoveAllShrinks(s: string, pattern: string) returns (n: nat)
    requires |pattern| > 0
    ensures |s| - |RemoveAll(s, pattern)| == n * |pattern|
    ensures forall c :: c in RemoveAll(s, pattern) ==> c in s
    decreases |s|
  {
    RemoveAllKeepsChars(s, pattern);
    if s == [] {
      n := 0;
    } else if StartsWith(s, pattern) {
      var m := RemoveAllShrinks(s[|pattern|..], pattern);
      n := m + 1;
    } else {
      n := RemoveAllShrinks(s[1..], pattern);
    }
  }

  lemma {:induction false} RemoveAllKeepsChars(s: string, pattern: string)
    requires |pattern| > 0
    ensures forall c :: c in RemoveAll(s, pattern) ==> c in s
    decreases |s|
  {
    if s == [] {
    } else if StartsWith(s, pattern) {
      var rest := s[|pattern|..];
      RemoveAllKeepsChars(rest, pattern);
      forall c | c in rest ensures c in s {
        var k :| 0 <= k < |rest| && rest[k] == c;
        assert s[|pattern| + k] == c;
      }
    } else {
      var rest := s[1..];
      RemoveAllKeepsChars(rest, pattern);
      assert RemoveAll(s, pattern) == [s[0]] + RemoveAll(rest, pattern);
      forall c | c in rest ensures c in s {
        var k :| 0 <= k < |rest| && rest[k] == c;
        assert s[k + 1] == c;
      }
    }
  }

  /** `s.replace(/\s+/g, ' ')`: every maximal run of space becomes one blank. */
  function CollapseSpaces(s: string): string
    decreases |s|
  {
    if s == [] then []
    else if IsSpace(s[0]) then
      [' '] + CollapseSpaces(TrimStart(s[1..]))
    else [s[0]] + CollapseSpaces(s[1..])
  }

  /** After collapsing, every space is a single blank and no two are
      adjacent; every other character is kept, in order, and so is every
      word, so each gap between two words is exactly one blank; and the text
      starts and ends with a space exactly when it did before. */
  lemma {:induction false} CollapseSpacesSpec(s: string)
    ensures var r := CollapseSpaces(s);
      && (forall k :: 0 <= k < |r| && IsSpace(r[k]) ==> r[k] == ' ')
      && (forall k :: 0 <= k < |r| - 1 ==> !(IsSpace(r[k]) && IsSpace(r[k + 1])))
      && (s != [] ==> r != [] && IsSpace(r[0]) == IsSpace(s[0]))
      && NonSpace(r) == NonSpace(s)
      && (s != [] ==> IsSpace(r[|r| - 1]) == IsSpace(s[|s| - 1]))
      && Words(r) == Words(s)
    decreases |s|
  {
    CollapseSpacesKeepsText(s);
    CollapseSpacesKeepsWords(s);
    if s == [] {
    } else if IsSpace(s[0]) {
      var t := TrimStart(s[1..]);
      TrimStartSpec(s[1..]);
      CollapseSpacesSpec(t);
      var r := CollapseSpaces(s);
      assert r[1..] == CollapseSpaces(t);
    } else {
      CollapseSpacesSpec(s[1..]);
      var r := CollapseSpaces(s);
      assert r[1..] == CollapseSpaces(s[1..]);
    }
  }

  /** Collapsing keeps the characters that are not space, and whether the
      text ends with space. */
  lemma CollapseSpacesKeepsText(s: string)
    ensures NonSpace(CollapseSpaces(s)) == NonSpace(s)
    ensures s != [] ==> CollapseSpaces(s) != [] && IsSpace(CollapseSpaces(s)[|CollapseSpaces(s)| - 1]) == IsSpace(s[|s| - 1])
  {
    CollapseSpacesKeepsNonSpace(s);
    CollapseSpacesKeepsEnd(s);
  }

  lemma {:induction false} CollapseSpacesKeepsNonSpace(s: string)
    ensures NonSpace(CollapseSpaces(s)) == NonSpace(s)
    decreases |s|
  {
    if s != [] {
      assert s == [s[0]] + s[1..];
      NonSpaceAppend([s[0]], s[1..]);
      if IsSpace(s[0]) {
        var t := TrimStart(s[1..]);
        CollapseSpacesKeepsNonSpace(t);
        TrimStartKeepsNonSpace(s[1..]);
        TrimStartSpec(s[1..]);
        NonSpaceAppend([' '], CollapseSpaces(t));
      } else {
        CollapseSpacesKeepsNonSpace(s[1..]);
        NonSpaceAppend([s[0]], CollapseSpaces(s[1..]));
      }
    }
  }

  lemma {:induction false} CollapseSpacesKeepsEnd(s: string)
    ensures s != [] ==> CollapseSpaces(s) != [] && IsSpace(CollapseSpaces(s)[|CollapseSpaces(s)| - 1]) == IsSpace(s[|s| - 1])
    decreases |s|
  {
    if s != [] {
      var r := CollapseSpaces(s);
      if IsSpace(s[0]) {
        var t := TrimStart(s[1..]);
        CollapseSpacesKeepsEnd(t);
        TrimStartSpec(s[1..]);
        assert r == [' '] + CollapseSpaces(t);
        if t != [] {
          assert t[|t| - 1] == s[|s| - 1];
        } else if |s| > 1 {
          assert IsSpace(s[1..][|s| - 2]);
        }
      } else {
        CollapseSpacesKeepsEnd(s[1..]);
        assert r == [s[0]] + CollapseSpaces(s[1..]);
      }
    }
  }

  /** Collapsing keeps the words. */
  lemma {:induction false} CollapseSpacesKeepsWords(s: string)
    ensures Words(CollapseSpaces(s)) == Words(s)
    decreases |s|
  {
    if s != [] {
      var r := CollapseSpaces(s);
      if IsSpace(s[0]) {
        var t := TrimStart(s[1..]);
        TrimStartSpec(s[1..]);
        CollapseSpacesKeepsWords(t);
        TrimStartKeepsWords(s[1..]);
        assert r[1..] == CollapseSpaces(t);
      } else {
        CollapseSpacesKeepsWords(s[1..]);
        var c := CollapseSpaces(s[1..]);
        assert r[1..] == c;
        if |s| > 1 {
          var s1 := s[1..];
          if IsSpace(s[1]) {
            assert c == [' '] + CollapseSpaces(TrimStart(s1[1..]));
          } else {
            assert c == [s1[0]] + CollapseSpaces(s1[1..]);
          }
          assert r[1] == c[0];
        } else {
          assert c == [];
        }
      }
    }
  }
}
