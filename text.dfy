/** Character and string operations the Python source relies on: ASCII case
    mapping (`str.upper`, `re.IGNORECASE`), substring search (`in`),
    `str.replace`, `str.split`/`str.join` on one separator, and decimal
    rendering of integers inside f-strings. */
module Text {

  /* ---------------- characters ---------------- */

  predicate IsDigit(c: char) {
    '0' <= c <= '9'
  }

  predicate AllDigits(s: string) {
    forall i | 0 <= i < |s| :: IsDigit(s[i])
  }

  /** `str.upper` restricted to ASCII letters. */
  function UpperChar(c: char): char {
    if 'a' <= c <= 'z' then (c as int - 32) as char else c
  }

  /** `str.upper` on ASCII: every character through `UpperChar`. */
  function Upper(s: string): string {
    seq(|s|, i requires 0 <= i < |s| => UpperChar(s[i]))
  }

  /** Two strings are equal under ASCII case folding. */
  predicate EqualsIgnoreCase(a: string, b: string) {
    Upper(a) == Upper(b)
  }

  predicate HasLower(s: string) {
    exists i | 0 <= i < |s| :: 'a' <= s[i] <= 'z'
  }

  /** Upper-casing keeps the length, leaves no lower-case letter, and changes
      exactly the strings that have one. */
  lemma UpperNoLower(s: string)
    ensures |Upper(s)| == |s| && !HasLower(Upper(s))
    ensures Upper(s) == s <==> !HasLower(s)
  {
    if HasLower(s) {
      var i :| 0 <= i < |s| && 'a' <= s[i] <= 'z';
      assert Upper(s)[i] != s[i];
    }
  }

  /** Upper-casing twice is upper-casing once. */
  lemma UpperIdempotent(s: string)
    ensures Upper(Upper(s)) == Upper(s)
  {
    UpperNoLower(s);
    UpperNoLower(Upper(s));
  }

  /** Upper-casing commutes with taking a slice. */
  lemma UpperSlice(s: string, i: nat, j: nat)
    requires i <= j <= |s|
    ensures Upper(s)[i..j] == Upper(s[i..j])
  {
  }

  /* ---------------- substring search ---------------- */

  predicate OccursAt(s: string, p: string, i: int) {
    0 <= i && i + |p| <= |s| && s[i..i + |p|] == p
  }

  /** Python's `p in s` for strings. */
  predicate Contains(s: string, p: string) {
    exists i | 0 <= i <= |s| - |p| :: OccursAt(s, p, i)
  }

  predicate ContainsIgnoreCase(s: string, p: string) {
    Contains(Upper(s), Upper(p))
  }

  predicate EndsWith(s: string, suffix: string) {
    |suffix| <= |s| && s[|s| - |suffix|..] == suffix
  }

  predicate EndsWithIgnoreCase(s: string, suffix: string) {
    |suffix| <= |s| && EqualsIgnoreCase(s[|s| - |suffix|..], suffix)
  }

  lemma ContainsWitness(s: string, p: string, i: int)
    requires OccursAt(s, p, i)
    ensures Contains(s, p)
  {
  }

  /** A pattern that is not contained occurs nowhere. */
  lemma NoOccurrence(s: string, p: string)
    requires !Contains(s, p)
    ensures forall j | 0 <= j :: !OccursAt(s, p, j)
  {
  }

  /** An occurrence is an occurrence when case is ignored. */
  lemma OccursAtUpper(s: string, p: string, i: int)
    requires OccursAt(s, p, i)
    ensures OccursAt(Upper(s), Upper(p), i)
  {
    assert Upper(s)[i..i + |p|] == Upper(p);
  }

  /** The window of `s` at `i` equals `t` once case is ignored. */
  predicate OccursAtIgnoreCase(s: string, t: string, i: int) {
    0 <= i && i + |t| <= |s| && EqualsIgnoreCase(s[i..i + |t|], t)
  }

  /** `t.upper() in s.upper()` holds exactly when some window of `s` equals
      `t` once case is ignored. */
  lemma ContainsIgnoreCaseAt(s: string, t: string)
    ensures ContainsIgnoreCase(s, t) <==> exists i :: OccursAtIgnoreCase(s, t, i)
  {
    UpperNoLower(s);
    UpperNoLower(t);
    if ContainsIgnoreCase(s, t) {
      var i :| 0 <= i <= |Upper(s)| - |Upper(t)| && OccursAt(Upper(s), Upper(t), i);
      UpperSlice(s, i, i + |t|);
      assert OccursAtIgnoreCase(s, t, i);
    }
    if exists i :: OccursAtIgnoreCase(s, t, i) {
      var i :| OccursAtIgnoreCase(s, t, i);
      UpperSlice(s, i, i + |t|);
      assert OccursAt(Upper(s), Upper(t), i);
    }
  }

  /** An occurrence inside an occurrence is an occurrence. */
  lemma ContainsTransitive(s: string, u: string, w: string)
    requires Contains(s, u) && Contains(u, w)
    ensures Contains(s, w)
  {
    var i :| 0 <= i <= |s| - |u| && OccursAt(s, u, i);
    var j :| 0 <= j <= |u| - |w| && OccursAt(u, w, j);
    forall k | 0 <= k < |w|
      ensures s[i + j + k] == w[k]
    {
      assert w[k] == u[j + k] == s[i..i + |u|][j + k];
    }
    assert s[i + j..i + j + |w|] == w;
    assert OccursAt(s, w, i + j);
  }

  /** Occurrences in a suffix are occurrences in the whole string, shifted. */
  lemma OccursAtDrop(s: string, q: string, k: nat, j: nat)
    requires k <= |s|
    ensures OccursAt(s[k..], q, j) <==> OccursAt(s, q, k + j)
  {
    if j + |q| <= |s| - k {
      assert s[k..][j..j + |q|] == s[k + j..k + j + |q|];
    }
  }

  /** Occurrences behind a prefix `a` are occurrences in what follows it. */
  lemma OccursAtBehind(a: string, b: string, q: string, i: nat)
    requires |a| <= i
    ensures OccursAt(a + b, q, i) <==> OccursAt(b, q, i - |a|)
  {
    assert (a + b)[|a|..] == b;
    OccursAtDrop(a + b, q, |a|, i - |a|);
  }

  /* ---------------- str.replace ---------------- */

  /** `s.replace(p, r)`: every occurrence of `p`, scanning left to right and
      never overlapping, is replaced by `r`. */
  function ReplaceAll(s: string, p: string, r: string): string
    requires |p| > 0
    decreases |s|
  {
    if |s| < |p| then s
    else if s[..|p|] == p then r + ReplaceAll(s[|p|..], p, r)
    else [s[0]] + ReplaceAll(s[1..], p, r)
  }

  /** Nothing to replace: the string is returned unchanged. */
  lemma {:induction false} ReplaceAllAbsent(s: string, p: string, r: string)
    requires |p| > 0 && !Contains(s, p)
    ensures ReplaceAll(s, p, r) == s
    decreases |s|
  {
    if |s| < |p| {
    } else {
      assert !OccursAt(s, p, 0);
      if !Contains(s[1..], p) {
        ReplaceAllAbsent(s[1..], p, r);
      } else {
        var i :| 0 <= i <= |s[1..]| - |p| && OccursAt(s[1..], p, i);
        assert s[i + 1..i + 1 + |p|] == s[1..][i..i + |p|];
        assert OccursAt(s, p, i + 1);
        assert false;
      }
    }
  }

  /** If `p` occurs, the replacement text occurs in the result. */
  lemma {:induction false} ReplaceAllIntroduces(s: string, p: string, r: string)
    requires |p| > 0 && Contains(s, p)
    ensures Contains(ReplaceAll(s, p, r), r)
    decreases |s|
  {
    var out := ReplaceAll(s, p, r);
    if s[..|p|] == p {
      assert out[..|r|] == r;
      assert OccursAt(out, r, 0);
    } else {
      var i :| 0 <= i <= |s| - |p| && OccursAt(s, p, i);
      assert i != 0;
      assert s[1..][i - 1..i - 1 + |p|] == s[i..i + |p|];
      assert OccursAt(s[1..], p, i - 1);
      ReplaceAllIntroduces(s[1..], p, r);
      var rest := ReplaceAll(s[1..], p, r);
      var j :| 0 <= j <= |rest| - |r| && OccursAt(rest, r, j);
      assert out == [s[0]] + rest;
      assert out[j + 1..j + 1 + |r|] == rest[j..j + |r|];
      assert OccursAt(out, r, j + 1);
    }
  }

  /** `u` and `q` disagree somewhere before either of them ends. */
  predicate DisagreeEarly(u: string, q: string) {
    exists j | 0 <= j < |u| && j < |q| :: u[j] != q[j]
  }

  /** As long as the result shows no first character of `r`, it is a verbatim
      copy of the input. */
  lemma {:induction false} ReplaceAllCopiesPrefix(t: string, p: string, r: string, m: nat)
    requires |p| > 0 && |r| > 0
    requires m <= |ReplaceAll(t, p, r)|
    requires forall j | 0 <= j < m :: ReplaceAll(t, p, r)[j] != r[0]
    ensures m <= |t| && t[..m] == ReplaceAll(t, p, r)[..m]
    decreases |t|
  {
    var out := ReplaceAll(t, p, r);
    if m > 0 && |p| <= |t| {
      var replaced := r + ReplaceAll(t[|p|..], p, r);
      assert out[0] != r[0] == replaced[0];
      assert t[..|p|] == p ==> out == replaced;
      var rest := ReplaceAll(t[1..], p, r);
      assert out == [t[0]] + rest;
      forall j | 0 <= j < m - 1
        ensures rest[j] != r[0]
      {
        assert rest[j] == out[j + 1];
      }
      ReplaceAllCopiesPrefix(t[1..], p, r, m - 1);
      assert t[..m] == [t[0]] + t[1..][..m - 1];
    }
  }

  /** `s.replace(p, r)` contains no `q` when (1) `q` can only start where
      `p` does in the input, (2) the first character of `r` does not occur in
      `q` after its first position, and (3) every window that starts inside
      `r` disagrees with `q` before `r` ends. */
  lemma {:induction false} ReplaceAllAvoids(s: string, p: string, r: string, q: string)
    requires |p| > 0 && |r| > 0 && |q| > 0
    requires forall j | 0 <= j :: OccursAt(s, q, j) ==> OccursAt(s, p, j)
    requires r[0] !in q[1..]
    requires forall i | 0 <= i < |r| :: DisagreeEarly(r[i..], q)
    ensures !Contains(ReplaceAll(s, p, r), q)
    decreases |s|, 1
  {
    if |p| <= |s| {
      var k := if s[..|p|] == p then |p| else 1;
      forall j | 0 <= j && OccursAt(s[k..], q, j)
        ensures OccursAt(s[k..], p, j)
      {
        OccursAtDrop(s, q, k, j);
        OccursAtDrop(s, p, k, j);
      }
      ReplaceAllAvoids(s[k..], p, r, q);
      if s[..|p|] == p {
        ReplaceAllAvoidsReplaced(s, p, r, q);
      } else {
        ReplaceAllAvoidsCopied(s, p, r, q);
      }
    }
  }

  /** No `q` in `r + rest` when `rest` has none and every window starting
      inside `r` disagrees with `q`. */
  lemma AvoidsBehindReplacement(r: string, rest: string, q: string)
    requires |q| > 0
    requires forall i | 0 <= i < |r| :: DisagreeEarly(r[i..], q)
    requires !Contains(rest, q)
    ensures !Contains(r + rest, q)
  {
    var out := r + rest;
    forall i | 0 <= i <= |out| - |q|
      ensures !OccursAt(out, q, i)
    {
      if i < |r| {
        assert DisagreeEarly(r[i..], q);
        var j :| 0 <= j < |r[i..]| && j < |q| && r[i..][j] != q[j];
        assert out[i..i + |q|][j] == out[i + j] == r[i + j];
      } else {
        OccursAtBehind(r, rest, q, i);
      }
    }
  }

  /** No `q` in `[c] + rest` when `rest` has none and `q` is not a prefix. */
  lemma AvoidsBehindCharacter(c: char, rest: string, q: string)
    requires !Contains(rest, q) && !OccursAt([c] + rest, q, 0)
    ensures !Contains([c] + rest, q)
  {
    forall i | 1 <= i <= |rest| + 1 - |q|
      ensures !OccursAt([c] + rest, q, i)
    {
      OccursAtBehind([c], rest, q, i);
    }
  }

  /** Step of ReplaceAllAvoids where the input starts with `p`. */
  lemma ReplaceAllAvoidsReplaced(s: string, p: string, r: string, q: string)
    requires |p| > 0 && |r| > 0 && |q| > 0
    requires |p| <= |s| && s[..|p|] == p
    requires forall i | 0 <= i < |r| :: DisagreeEarly(r[i..], q)
    requires !Contains(ReplaceAll(s[|p|..], p, r), q)
    ensures !Contains(ReplaceAll(s, p, r), q)
  {
    var rest := ReplaceAll(s[|p|..], p, r);
    assert ReplaceAll(s, p, r) == r + rest;
    AvoidsBehindReplacement(r, rest, q);
  }

  /** Where the first character is copied, `q` can only begin the result if
      it begins the input. */
  lemma ReplaceAllCopiedHead(s: string, p: string, r: string, q: string)
    requires |p| > 0 && |r| > 0 && |q| > 0
    requires |p| <= |s| && s[..|p|] != p
    requires r[0] !in q[1..]
    requires OccursAt(ReplaceAll(s, p, r), q, 0)
    ensures OccursAt(s, q, 0)
  {
    var rest := ReplaceAll(s[1..], p, r);
    assert ReplaceAll(s, p, r) == [s[0]] + rest;
    HeadOccurrence(s[0], rest, q);
    var m := |q| - 1;
    forall j | 0 <= j < m
      ensures rest[j] != r[0]
    {
      assert rest[j] == q[1..][j];
    }
    ReplaceAllCopiesPrefix(s[1..], p, r, m);
    assert s[..|q|] == [s[0]] + s[1..][..m];
  }

  /** `q` begins `[c] + rest` exactly when it is `c` followed by a prefix of `rest`. */
  lemma HeadOccurrence(c: char, rest: string, q: string)
    requires |q| > 0 && OccursAt([c] + rest, q, 0)
    ensures q[0] == c && |q| - 1 <= |rest| && rest[..|q| - 1] == q[1..]
  {
    assert ([c] + rest)[..|q|] == [c] + rest[..|q| - 1];
  }

  /** Step of ReplaceAllAvoids where the first character is copied. */
  lemma ReplaceAllAvoidsCopied(s: string, p: string, r: string, q: string)
    requires |p| > 0 && |r| > 0 && |q| > 0
    requires |p| <= |s| && s[..|p|] != p
    requires OccursAt(s, q, 0) ==> OccursAt(s, p, 0)
    requires r[0] !in q[1..]
    requires !Contains(ReplaceAll(s[1..], p, r), q)
    ensures !Contains(ReplaceAll(s, p, r), q)
  {
    var rest := ReplaceAll(s[1..], p, r);
    assert ReplaceAll(s, p, r) == [s[0]] + rest;
    if OccursAt(ReplaceAll(s, p, r), q, 0) {
      ReplaceAllCopiedHead(s, p, r, q);
    }
    AvoidsBehindCharacter(s[0], rest, q);
  }

  /** A character that does not recur after position 0 is only at 0. */
  lemma OnlyAtStart(r: string, c: char, i: nat)
    requires i < |r| && r[i] == c && c !in r[1..]
    ensures i == 0
  {
  }

  /** When `r` begins with `p` and the first character of `p` occurs
      neither later in `p` nor later in `r`, every `p` in `s.replace(p, r)`
      is the start of an `r`: no occurrence is left without its
      replacement. */
  lemma {:induction false} ReplaceAllMarks(s: string, p: string, r: string, i: nat)
    requires |p| > 0 && |p| <= |r| && r[..|p|] == p
    requires p[0] !in p[1..] && p[0] !in r[1..]
    requires OccursAt(ReplaceAll(s, p, r), p, i)
    ensures OccursAt(ReplaceAll(s, p, r), r, i)
    decreases |s|
  {
    var out := ReplaceAll(s, p, r);
    if |s| < |p| {
    } else if s[..|p|] == p {
      var rest := ReplaceAll(s[|p|..], p, r);
      assert out == r + rest;
      if i < |r| {
        assert out[i..i + |p|][0] == out[i] == r[i];
        OnlyAtStart(r, p[0], i);
        assert out[..|r|] == r;
      } else {
        OccursAtBehind(r, rest, p, i);
        ReplaceAllMarks(s[|p|..], p, r, i - |r|);
        OccursAtBehind(r, rest, r, i);
      }
    } else {
      var rest := ReplaceAll(s[1..], p, r);
      assert out == [s[0]] + rest;
      if i == 0 {
        ReplaceAllCopiedHead(s, p, r, p);
        assert false;
      }
      OccursAtBehind([s[0]], rest, p, i);
      ReplaceAllMarks(s[1..], p, r, i - 1);
      OccursAtBehind([s[0]], rest, r, i);
    }
  }

  /* ---------------- str.split / str.join on one character ---------------- */

  /** Index of the first occurrence of `c`. */
  function IndexOf(s: string, c: char): (k: nat)
    requires c in s
    ensures k < |s| && s[k] == c && c !in s[..k]
  {
    if s[0] == c then 0 else 1 + IndexOf(s[1..], c)
  }

  /** `s.split(sep)`: never empty; empty fields are kept. */
  function Split(s: string, sep: char): (parts: seq<string>)
    ensures |parts| >= 1
    ensures forall i | 0 <= i < |parts| :: sep !in parts[i]
    decreases |s|
  {
    if sep !in s then [s]
    else
      var k := IndexOf(s, sep);
      [s[..k]] + Split(s[k + 1..], sep)
  }

  /** `sep.join(parts)`. */
  function Join(parts: seq<string>, sep: char): string {
    if |parts| == 0 then ""
    else if |parts| == 1 then parts[0]
    else parts[0] + [sep] + Join(parts[1..], sep)
  }

  lemma {:induction false} JoinSplit(s: string, sep: char)
    ensures Join(Split(s, sep), sep) == s
    decreases |s|
  {
    if sep in s {
      var k := IndexOf(s, sep);
      var rest := Split(s[k + 1..], sep);
      var parts := Split(s, sep);
      assert parts == [s[..k]] + rest;
      assert parts[1..] == rest;
      JoinSplit(s[k + 1..], sep);
      assert Join(parts, sep) == s[..k] + [sep] + Join(rest, sep);
      assert s == s[..k] + [sep] + s[k + 1..];
    }
  }

  /** A string splits into a single field exactly when it has no separator. */
  lemma SplitSingle(s: string, sep: char)
    ensures |Split(s, sep)| == 1 <==> sep !in s
  {
  }

  /* ---------------- decimal rendering ---------------- */

  function DigitChar(d: nat): (c: char)
    requires d < 10
    ensures IsDigit(c)
  {
    ('0' as int + d) as char
  }

  /** `f"{n}"` for a natural number. */
  function NatToString(n: nat): (s: string)
    ensures |s| >= 1 && AllDigits(s)
  {
    if n < 10 then [DigitChar(n)] else NatToString(n / 10) + [DigitChar(n % 10)]
  }

  /** `f"{i}"` for any integer. */
  function IntToString(i: int): string {
    if i < 0 then "-" + NatToString(-i) else NatToString(i)
  }

  /** Value of a string of decimal digits. */
  function DigitsValue(s: string): nat
    requires AllDigits(s)
  {
    if |s| == 0 then 0 else DigitsValue(s[..|s| - 1]) * 10 + (s[|s| - 1] as int - '0' as int)
  }

  lemma {:induction false} NatToStringRoundTrip(n: nat)
    ensures DigitsValue(NatToString(n)) == n
  {
    if n >= 10 {
      NatToStringRoundTrip(n / 10);
      var s := NatToString(n);
      assert s[..|s| - 1] == NatToString(n / 10);
    }
  }

  lemma NatToStringInjective(a: nat, b: nat)
    ensures NatToString(a) == NatToString(b) ==> a == b
  {
    NatToStringRoundTrip(a);
    NatToStringRoundTrip(b);
  }

  /** Equal texts after a common prefix come from equal numbers. */
  lemma PrefixedNatInjective(prefix: string, a: nat, b: nat)
    ensures prefix + NatToString(a) == prefix + NatToString(b) ==> a == b
  {
    if prefix + NatToString(a) == prefix + NatToString(b) {
      assert NatToString(a) == (prefix + NatToString(a))[|prefix|..];
      assert NatToString(b) == (prefix + NatToString(b))[|prefix|..];
      NatToStringInjective(a, b);
    }
  }
}
