/** The few Python string operations the scripts use, written out on `seq<char>`. */
module Text {

  /** `str.isspace()` for one character (the Unicode whitespace set Python uses). */
  predicate IsSpace(c: char) {
    c == ' ' || ('\t' <= c <= '\r') || ('\U{1c}' <= c <= '\U{1f}') || c == '\U{85}' || c == '\U{a0}'
    || c == '\U{1680}' || ('\U{2000}' <= c <= '\U{200a}') || c == '\U{2028}' || c == '\U{2029}'
    || c == '\U{202f}' || c == '\U{205f}' || c == '\U{3000}'
  }

  /** `str.lower()` on one character, for ASCII and the Latin-1 letters (À…Þ). */
  function LowerChar(c: char): char {
    if 'A' <= c <= 'Z' || ('\U{c0}' <= c <= '\U{de}' && c != '\U{d7}') then (c as int + 32) as char else c
  }

  function Lower(s: string): (r: string)
    ensures |r| == |s|
    ensures forall i :: 0 <= i < |s| ==> r[i] == LowerChar(s[i])
  {
    seq(|s|, i requires 0 <= i < |s| => LowerChar(s[i]))
  }

  /** `s.endswith(suffix)` (`s.startswith(prefix)` is Dafny's `prefix <= s`). */
  predicate EndsWith(s: string, suffix: string) {
    |suffix| <= |s| && s[|s| - |suffix|..] == suffix
  }

  /** `sub in s` for strings. */
  predicate Contains(s: string, sub: string)
    decreases |s|
  {
    sub <= s || (s != [] && Contains(s[1..], sub))
  }

  lemma {:induction false} ContainsShorter(s: string, sub: string)
    requires |s| < |sub|
    ensures !Contains(s, sub)
    decreases |s|
  {
    if s != [] { ContainsShorter(s[1..], sub); }
  }

  /** An occurrence inside a piece is an occurrence in the whole. */
  lemma {:induction false} ContainsInfix(a: string, b: string, c: string, sub: string)
    requires Contains(b, sub)
    ensures Contains(a + b + c, sub)
    decreases |a|, |b|
  {
    if a != [] {
      ContainsInfix(a[1..], b, c, sub);
      assert (a + b + c)[1..] == a[1..] + b + c;
    } else if sub <= b {
      assert a + b + c == b + c;
    } else {
      ContainsInfix([], b[1..], c, sub);
      assert (a + b + c)[1..] == [] + b[1..] + c;
    }
  }

  /** `s.replace(pat, rep)`: every non-overlapping occurrence, scanned left to right. */
  function ReplaceAll(s: string, pat: string, rep: string): string
    requires pat != []
    decreases |s|
  {
    if s == [] then []
    else if pat <= s then rep + ReplaceAll(s[|pat|..], pat, rep)
    else [s[0]] + ReplaceAll(s[1..], pat, rep)
  }

  lemma {:induction false} ReplaceAbsent(s: string, pat: string, rep: string)
    requires pat != [] && !Contains(s, pat)
    ensures ReplaceAll(s, pat, rep) == s
    decreases |s|
  {
    if s != [] { ReplaceAbsent(s[1..], pat, rep); }
  }

  /** Every character of a replacement result comes from `s` or from `rep`. */
  lemma {:induction false} ReplaceChars(s: string, pat: string, rep: string)
    requires pat != []
    ensures forall c :: c in ReplaceAll(s, pat, rep) ==> c in s || c in rep
    decreases |s|
  {
    if s != [] {
      var rest := if pat <= s then s[|pat|..] else s[1..];
      ReplaceChars(rest, pat, rep);
      SuffixChars(s, rest);
    }
  }

  /** Replacing a one-character pattern by a string without it removes it. */
  lemma {:induction false} ReplaceCharGone(s: string, c: char, rep: string)
    requires c !in rep
    ensures c !in ReplaceAll(s, [c], rep)
    decreases |s|
  {
    if s != [] {
      if [c] <= s { ReplaceCharGone(s[1..], c, rep); }
      else { ReplaceCharGone(s[1..], c, rep); }
    }
  }

  /** A replacement no longer than the pattern never lengthens the string, and a
      strictly shorter one shortens it whenever the pattern occurs. */
  lemma {:induction false} ReplaceShrinks(s: string, pat: string, rep: string)
    requires pat != [] && |rep| <= |pat|
    ensures |ReplaceAll(s, pat, rep)| <= |s|
    ensures Contains(s, pat) && |rep| < |pat| ==> |ReplaceAll(s, pat, rep)| < |s|
    decreases |s|
  {
    if s != [] {
      if pat <= s { ReplaceShrinks(s[|pat|..], pat, rep); }
      else { ReplaceShrinks(s[1..], pat, rep); }
    }
  }

  /** A one-character substring occurs exactly when the character does. */
  lemma {:induction false} ContainsChar(s: string, c: char)
    ensures Contains(s, [c]) <==> c in s
    decreases |s|
  {
    if s != [] {
      ContainsChar(s[1..], c);
      assert s == [s[0]] + s[1..];
    }
  }

  /** `s.split(sep)[0]`: the part of `s` before the first occurrence of `sep`. */
  function PrefixBefore(s: string, sep: string): (r: string)
    requires sep != []
    ensures r <= s
    decreases |s|
  {
    if s == [] || sep <= s then [] else [s[0]] + PrefixBefore(s[1..], sep)
  }

  lemma PrefixOfPrefix(a: string, b: string, c: string)
    requires b <= c
    ensures a <= b ==> a <= c
  {
    if a <= b { assert c[..|a|] == b[..|a|]; }
  }

  lemma {:induction false} PrefixBeforeFree(s: string, sep: string)
    requires sep != []
    ensures !Contains(PrefixBefore(s, sep), sep)
    decreases |s|
  {
    if s != [] && !(sep <= s) {
      var r := PrefixBefore(s[1..], sep);
      PrefixBeforeFree(s[1..], sep);
      assert PrefixBefore(s, sep) == [s[0]] + r;
      assert ([s[0]] + r)[1..] == r;
      PrefixOfPrefix(sep, [s[0]] + r, s);
    }
  }

  lemma {:induction false} PrefixBeforeAbsent(s: string, sep: string)
    requires sep != [] && !Contains(s, sep)
    ensures PrefixBefore(s, sep) == s
    decreases |s|
  {
    if s != [] { PrefixBeforeAbsent(s[1..], sep); }
  }

  /** An occurrence in a prefix is an occurrence in the whole. */
  lemma {:induction false} ContainsPrefix(r: string, s: string, sub: string)
    requires r <= s && Contains(r, sub)
    ensures Contains(s, sub)
    decreases |r|
  {
    if sub <= r {
      PrefixOfPrefix(sub, r, s);
    } else {
      assert r[1..] <= s[1..];
      ContainsPrefix(r[1..], s[1..], sub);
    }
  }

  /** The characters of an occurrence are characters of the string. */
  lemma {:induction false} ContainsChars(s: string, sub: string)
    ensures Contains(s, sub) ==> forall c :: c in sub ==> c in s
    decreases |s|
  {
    if Contains(s, sub) {
      if sub <= s {
        PrefixChars(sub, s);
      } else {
        ContainsChars(s[1..], sub);
        SuffixChars(s, s[1..]);
      }
    }
  }

  lemma {:induction false} ContainsSuffix(s: string, k: nat, sub: string)
    requires k <= |s| && Contains(s[k..], sub)
    ensures Contains(s, sub)
    decreases k
  {
    if k > 0 {
      assert s[k - 1..][1..] == s[k..];
      ContainsSuffix(s, k - 1, sub);
    } else {
      assert s[0..] == s;
    }
  }

  /** The part before a separator that first occurs at `k`. */
  lemma {:induction false} PrefixBeforeAt(s: string, k: nat, sep: string)
    requires sep != [] && k <= |s| && sep <= s[k..]
    requires forall j :: 0 <= j < k ==> s[j] != sep[0]
    ensures PrefixBefore(s, sep) == s[..k]
    decreases k
  {
    if k > 0 {
      assert s[1..][k - 1..] == s[k..];
      PrefixBeforeAt(s[1..], k - 1, sep);
    } else {
      assert s[0..] == s;
    }
  }

  /** Cutting at a separator that occurs removes at least the separator. */
  lemma {:induction false} PrefixBeforeShorter(s: string, sep: string)
    requires sep != [] && Contains(s, sep)
    ensures |PrefixBefore(s, sep)| < |s|
    decreases |s|
  {
    if !(sep <= s) {
      PrefixBeforeShorter(s[1..], sep);
    }
  }

  /** Cutting at a separator whose first character does not occur in a prefix `p`
      keeps `p`. */
  lemma {:induction false} PrefixBeforeKeeps(s: string, sep: string, p: string)
    requires sep != [] && p <= s && sep[0] !in p
    ensures p <= PrefixBefore(s, sep)
    decreases |p|
  {
    if p != [] {
      assert s[0] == p[0];
      assert !(sep <= s);
      assert p[1..] <= s[1..];
      PrefixBeforeKeeps(s[1..], sep, p[1..]);
    }
  }

  /** `s.lstrip(chars)` for the characters satisfying `p`. */
  function LStripBy(s: string, p: char -> bool): (r: string)
    ensures |r| <= |s| && r == s[|s| - |r|..]
    ensures r == [] || !p(r[0])
    ensures forall i :: 0 <= i < |s| - |r| ==> p(s[i])
    decreases |s|
  {
    if s != [] && p(s[0]) then
      var r := LStripBy(s[1..], p);
      assert s[1..][|s[1..]| - |r|..] == s[|s| - |r|..];
      assert forall i :: 1 <= i < |s| - |r| ==> s[i] == s[1..][i - 1];
      r
    else s
  }

  /** `s.rstrip(chars)` for the characters satisfying `p`. */
  function RStripBy(s: string, p: char -> bool): (r: string)
    ensures r <= s
    ensures r == [] || !p(r[|r| - 1])
    ensures forall i :: |r| <= i < |s| ==> p(s[i])
    decreases |s|
  {
    if s != [] && p(s[|s| - 1]) then
      var r := RStripBy(s[..|s| - 1], p);
      assert forall i :: |r| <= i < |s| - 1 ==> s[i] == s[..|s| - 1][i];
      r
    else s
  }

  /** `s.strip(chars)`. */
  function StripBy(s: string, p: char -> bool): (r: string)
    ensures r == [] || (!p(r[0]) && !p(r[|r| - 1]))
    ensures |r| <= |s|
  {
    RStripBy(LStripBy(s, p), p)
  }

  /** `s.strip()`: leading and trailing whitespace removed. */
  function Strip(s: string): string {
    StripBy(s, IsSpace)
  }

  /** `s.rsplit(c, 1)[0]`: the part of `s` before its last `c`, or all of `s`. */
  function RSplitHead(s: string, c: char): (r: string)
    ensures r <= s
    ensures c !in s ==> r == s
    ensures c in s ==> |r| < |s| && s[|r|] == c && c !in s[|r| + 1..]
    decreases |s|
  {
    if c !in s then s
    else if s[|s| - 1] == c then s[..|s| - 1]
    else
      assert c in s[..|s| - 1];
      var r := RSplitHead(s[..|s| - 1], c);
      assert s[|r| + 1..] == s[..|s| - 1][|r| + 1..] + [s[|s| - 1]];
      r
  }

  /** `sep.join(parts)`. */
  function Join(sep: string, parts: seq<string>): string
    decreases |parts|
  {
    if parts == [] then [] else if |parts| == 1 then parts[0] else parts[0] + sep + Join(sep, parts[1..])
  }

  /* ---------- `' '.join(s.split())` ---------- */

  /** The longest prefix of `t` without whitespace. */
  function TakeWord(t: string): (w: string)
    ensures w <= t
    ensures forall i :: 0 <= i < |w| ==> !IsSpace(w[i])
    ensures |w| < |t| ==> IsSpace(t[|w|])
    decreases |t|
  {
    if t == [] || IsSpace(t[0]) then [] else [t[0]] + TakeWord(t[1..])
  }

  /** `' '.join(s.split())`: whitespace runs become one space, ends trimmed. */
  function Normalize(s: string): string
    decreases |s|
  {
    if s == [] then []
    else if IsSpace(s[0]) then Normalize(s[1..])
    else
      var w := TakeWord(s);
      var rest := Normalize(s[|w|..]);
      if rest == [] then w else w + " " + rest
  }

  /** `s.split()`: the maximal runs of non-whitespace characters, in order. */
  function Words(s: string): (ws: seq<string>)
    ensures forall i :: 0 <= i < |ws| ==> ws[i] != [] && forall j :: 0 <= j < |ws[i]| ==> !IsSpace(ws[i][j])
    decreases |s|
  {
    if s == [] then []
    else if IsSpace(s[0]) then Words(s[1..])
    else [TakeWord(s)] + Words(s[|TakeWord(s)|..])
  }

  /** Collapsing whitespace is joining the words with single spaces. */
  lemma {:induction false} NormalizeIsJoin(s: string)
    ensures Normalize(s) == Join(" ", Words(s))
    decreases |s|
  {
    if s != [] {
      if IsSpace(s[0]) {
        NormalizeIsJoin(s[1..]);
      } else {
        var w := TakeWord(s);
        NormalizeIsJoin(s[|w|..]);
        var ws := Words(s[|w|..]);
        assert Words(s) == [w] + ws;
        if ws != [] {
          assert Join(" ", [w] + ws) == w + " " + Join(" ", ws);
          assert Join(" ", ws) != [] by { assert |Join(" ", ws)| >= |ws[0]|; }
        }
      }
    }
  }

  /** A string `' '.join(s.split())` leaves as it is: the only whitespace is single
      inner spaces. */
  predicate IsNormalized(t: string) {
    && (forall i :: 0 <= i < |t| && IsSpace(t[i]) ==> t[i] == ' ')
    && (forall i :: 0 <= i < |t| ==> !SpacePairAt(t, i))
    && (t != [] ==> t[0] != ' ' && t[|t| - 1] != ' ')
  }

  /** Two spaces in a row end at position `i` of `t`. */
  predicate SpacePairAt(t: string, i: int) {
    0 < i < |t| && t[i] == ' ' && t[i - 1] == ' '
  }

  /** Every character of `r` is a space or a non-whitespace character of `s`. */
  predicate CharsFrom(r: string, s: string) {
    forall c :: c in r ==> c == ' ' || (!IsSpace(c) && c in s)
  }

  lemma CharsWiden(r: string, a: string, b: string)
    requires CharsFrom(r, a) && forall c :: c in a ==> c in b
    ensures CharsFrom(r, b)
  {
  }

  lemma SuffixChars(s: string, t: string)
    requires |t| <= |s| && t == s[|s| - |t|..]
    ensures forall c :: c in t ==> c in s
  {
    forall c | c in t ensures c in s {
      var k :| 0 <= k < |t| && t[k] == c;
      assert s[|s| - |t| + k] == c;
    }
  }

  lemma PrefixChars(w: string, t: string)
    requires w <= t
    ensures forall c :: c in w ==> c in t
  {
    forall c | c in w ensures c in t {
      var k :| 0 <= k < |w| && w[k] == c;
      assert t[k] == c;
    }
  }

  /** A word, one space and a normalized rest form a normalized string. */
  lemma JoinShape(w: string, rest: string, s: string)
    requires w != [] && forall i :: 0 <= i < |w| ==> !IsSpace(w[i])
    requires forall c :: c in w ==> c in s
    requires IsNormalized(rest) && CharsFrom(rest, s)
    requires rest == [] || !IsSpace(rest[0])
    ensures var r := if rest == [] then w else w + " " + rest;
      IsNormalized(r) && CharsFrom(r, s) && !IsSpace(r[0])
  {
    forall c | c in w ensures !IsSpace(c) {
      var k :| 0 <= k < |w| && w[k] == c;
    }
    if rest != [] {
      var r := w + " " + rest;
      JoinSpaces(w, rest);
      forall c | c in r ensures c == ' ' || (!IsSpace(c) && c in s) {
        assert c in w || c == ' ' || c in rest;
      }
    }
  }

  /** The whitespace of a word, one space and a normalized rest is single spaces
      between non-whitespace ends. */
  lemma JoinSpaces(w: string, rest: string)
    requires w != [] && forall i :: 0 <= i < |w| ==> !IsSpace(w[i])
    requires IsNormalized(rest) && rest != [] && !IsSpace(rest[0])
    ensures IsNormalized(w + " " + rest)
  {
    var r := w + " " + rest;
    assert forall i :: 0 <= i < |w| ==> r[i] == w[i];
    assert forall i :: |w| < i < |r| ==> r[i] == rest[i - |w| - 1];
    assert r[|w|] == ' ' && r[|w| + 1] == rest[0];
    forall i ensures !SpacePairAt(r, i) {
      if i > |w| + 1 && i < |r| {
        assert r[i - 1] == rest[i - |w| - 2];
        assert !SpacePairAt(rest, i - |w| - 1);
      }
    }
  }

  lemma {:induction false} NormalizeShape(s: string)
    ensures IsNormalized(Normalize(s)) && CharsFrom(Normalize(s), s)
    ensures Normalize(s) == [] || !IsSpace(Normalize(s)[0])
    decreases |s|
  {
    if s != [] {
      if IsSpace(s[0]) {
        NormalizeShape(s[1..]);
        SuffixChars(s, s[1..]);
        CharsWiden(Normalize(s[1..]), s[1..], s);
      } else {
        var w := TakeWord(s);
        var tail := s[|w|..];
        NormalizeShape(tail);
        PrefixChars(w, s);
        SuffixChars(s, tail);
        CharsWiden(Normalize(tail), tail, s);
        JoinShape(w, Normalize(tail), s);
      }
    }
  }

  /** A word, one space and a normalized rest collapse to themselves. */
  lemma NormalizeWordSpace(t: string, k: nat, after: string)
    requires t != [] && !IsSpace(t[0]) && k == |TakeWord(t)| < |t| && t[k] == ' '
    requires after == t[k + 1..] && after != [] && Normalize(after) == after
    ensures Normalize(t) == t
  {
    var w := TakeWord(t);
    assert t[k..][1..] == after;
    assert Normalize(t[k..]) == after;
    assert t == w + [t[k]] + after;
  }

  /** A normalized string has no whitespace but single inner spaces: the word at its
      start ends at a space or at its end. */
  lemma NormalizedAfter(t: string, k: nat)
    requires IsNormalized(t) && k == |TakeWord(t)| < |t|
    ensures t[k] == ' ' && k + 1 < |t| && IsNormalized(t[k + 1..])
  {
    var after := t[k + 1..];
    forall i ensures !SpacePairAt(after, i) {
      if 0 < i < |after| {
        assert after[i] == t[k + 1 + i] && after[i - 1] == t[k + i];
        assert !SpacePairAt(t, k + 1 + i);
      }
    }
    assert !SpacePairAt(t, k + 1);
    forall i | 0 <= i < |after| && IsSpace(after[i]) ensures after[i] == ' ' {
      assert after[i] == t[k + 1 + i];
    }
    if after != [] { assert after[0] == t[k + 1]; }
  }

  lemma {:induction false} NormalizeFixpoint(t: string)
    requires IsNormalized(t)
    ensures Normalize(t) == t
    decreases |t|
  {
    if t != [] {
      var w := TakeWord(t);
      if |w| < |t| {
        var k := |w|;
        NormalizedAfter(t, k);
        var after := t[k + 1..];
        NormalizeFixpoint(after);
        NormalizeWordSpace(t, k, after);
      }
    }
  }

  /* ---------- string order ---------- */

  /** Python's `<` on strings: code-point lexicographic order. */
  predicate StrLt(a: string, b: string)
    decreases |a|
  {
    if a == [] then b != []
    else if b == [] then false
    else if a[0] != b[0] then a[0] < b[0]
    else StrLt(a[1..], b[1..])
  }

  lemma {:induction false} StrLtIrreflexive(a: string)
    ensures !StrLt(a, a)
    decreases |a|
  {
    if a != [] { StrLtIrreflexive(a[1..]); }
  }

  lemma {:induction false} StrLtTransitive(a: string, b: string, c: string)
    requires StrLt(a, b) && StrLt(b, c)
    ensures StrLt(a, c)
    decreases |a|
  {
    if a != [] && b != [] && c != [] && a[0] == b[0] && b[0] == c[0] {
      StrLtTransitive(a[1..], b[1..], c[1..]);
    }
  }

  lemma {:induction false} StrLtTotal(a: string, b: string)
    requires a != b
    ensures StrLt(a, b) || StrLt(b, a)
    decreases |a|
  {
    if a != [] && b != [] && a[0] == b[0] {
      assert a == [a[0]] + a[1..] && b == [b[0]] + b[1..];
      StrLtTotal(a[1..], b[1..]);
    }
  }

  /* ---------- numbers ---------- */

  function DigitChar(d: nat): char
    requires d < 10
  {
    ('0' as int + d) as char
  }

  /** `str(n)` for a natural number. */
  function NatToString(n: nat): (r: string)
    ensures r != []
    ensures forall i :: 0 <= i < |r| ==> '0' <= r[i] <= '9'
  {
    if n < 10 then [DigitChar(n)] else NatToString(n / 10) + [DigitChar(n % 10)]
  }
}
