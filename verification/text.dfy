/** The string primitives the scripts use: PHP's `explode`, `implode` and `trim`. */
module Text {
  import opened Base

  /** `sep` occurs in `s` starting at index `i`. */
  predicate OccursAt(s: string, sep: string, i: nat) {
    i + |sep| <= |s| && s[i..i + |sep|] == sep
  }

  /** `sep` occurs somewhere in `s`. */
  ghost predicate Contains(s: string, sep: string) {
    exists i: nat :: OccursAt(s, sep, i)
  }

  /** Occurrences in a suffix are occurrences in the whole, shifted by the suffix's start. */
  lemma {:induction false} OccursInSuffix(s: string, sep: string, k: nat, j: nat)
    requires k <= |s|
    ensures OccursAt(s[k..], sep, j) <==> OccursAt(s, sep, k + j)
  {
    if j + |sep| <= |s| - k {
      assert s[k..][j..j + |sep|] == s[k + j..k + j + |sep|];
    }
  }

  /** Occurrences in a prefix are occurrences in the whole. */
  lemma {:induction false} OccursInPrefix(s: string, sep: string, k: nat, j: nat)
    requires k <= |s|
    ensures OccursAt(s[..k], sep, j) ==> OccursAt(s, sep, j)
  {
    if j + |sep| <= k {
      assert s[..k][j..j + |sep|] == s[j..j + |sep|];
    }
  }

  /** The leftmost occurrence of `sep` in `s`, as PHP's `strpos` finds it. */
  function IndexOf(s: string, sep: string): (r: Option<nat>)
    requires |sep| > 0
    ensures r.Some? ==> OccursAt(s, sep, r.value)
    ensures r.Some? ==> forall j: nat :: j < r.value ==> !OccursAt(s, sep, j)
    ensures r.None? <==> !Contains(s, sep)
    decreases |s|
  {
    if |s| < |sep| then None
    else if s[..|sep|] == sep then Some(0)
    else
      match IndexOf(s[1..], sep)
      case None =>
        assert forall j: nat :: !OccursAt(s, sep, j) by {
          forall j: nat ensures !OccursAt(s, sep, j) {
            if j > 0 { OccursInSuffix(s, sep, 1, j - 1); }
          }
        }
        None
      case Some(k) =>
        OccursInSuffix(s, sep, 1, k);
        assert forall j: nat :: j < k + 1 ==> !OccursAt(s, sep, j) by {
          forall j: nat | j < k + 1 ensures !OccursAt(s, sep, j) {
            if j > 0 { OccursInSuffix(s, sep, 1, j - 1); }
          }
        }
        Some(k + 1)
  }

  /** PHP's `explode(sep, s)`: the pieces between successive leftmost occurrences of `sep`.
      There is always at least one piece, and no piece contains the separator. */
  function Split(s: string, sep: string): (parts: seq<string>)
    requires |sep| > 0
    ensures |parts| >= 1
    ensures forall i :: 0 <= i < |parts| ==> !Contains(parts[i], sep)
    decreases |s|
  {
    match IndexOf(s, sep)
    case None => [s]
    case Some(i) =>
      assert !Contains(s[..i], sep) by {
        forall j: nat ensures !OccursAt(s[..i], sep, j) {
          OccursInPrefix(s, sep, i, j);
        }
      }
      [s[..i]] + Split(s[i + |sep|..], sep)
  }

  /** PHP's `implode(sep, parts)`: the pieces with `sep` between neighbours. */
  function Join(parts: seq<string>, sep: string): string
    decreases |parts|
  {
    if |parts| == 0 then ""
    else if |parts| == 1 then parts[0]
    else parts[0] + sep + Join(parts[1..], sep)
  }

  /** Exploding and imploding with the same separator gives the original string back. */
  lemma {:induction false} JoinSplit(s: string, sep: string)
    requires |sep| > 0
    ensures Join(Split(s, sep), sep) == s
    decreases |s|
  {
    match IndexOf(s, sep)
    case None =>
    case Some(i) =>
      var rest := s[i + |sep|..];
      var parts := Split(rest, sep);
      JoinSplit(rest, sep);
      assert Split(s, sep) == [s[..i]] + parts;
      assert ([s[..i]] + parts)[1..] == parts;
      assert Join([s[..i]] + parts, sep) == s[..i] + sep + rest;
      assert s == s[..i] + s[i..i + |sep|] + rest;
  }

  /** Imploding two non-empty lists puts one separator between the two halves. */
  lemma {:induction false} JoinConcat(a: seq<string>, b: seq<string>, sep: string)
    requires |a| >= 1 && |b| >= 1
    ensures Join(a + b, sep) == Join(a, sep) + sep + Join(b, sep)
    decreases |a|
  {
    if |a| == 1 {
      assert (a + b)[1..] == b;
    } else {
      JoinConcat(a[1..], b, sep);
      assert (a + b)[1..] == a[1..] + b;
    }
  }

  /** Conversely, for a one-character separator, exploding an imploded list whose pieces
      are free of the separator gives the list back. */
  lemma {:induction false} SplitJoin(parts: seq<string>, c: char)
    requires |parts| >= 1
    requires forall i :: 0 <= i < |parts| ==> c !in parts[i]
    ensures Split(Join(parts, [c]), [c]) == parts
    decreases |parts|
  {
    var s := Join(parts, [c]);
    var p := parts[0];
    if |parts| == 1 {
      forall j: nat ensures !OccursAt(p, [c], j) {
        if j < |p| { assert p[j..j + 1] == [p[j]]; }
      }
    } else {
      var rest := Join(parts[1..], [c]);
      assert s == p + [c] + rest;
      assert OccursAt(s, [c], |p|) by {
        assert s[|p|..|p| + 1] == [c];
      }
      forall j: nat | j < |p| ensures !OccursAt(s, [c], j) {
        assert s[j] == p[j];
        assert s[j..j + 1] == [s[j]];
      }
      var k := IndexOf(s, [c]);
      assert k == Some(|p|);
      assert s[..|p|] == p;
      assert s[|p| + 1..] == rest;
      SplitJoin(parts[1..], c);
    }
  }

  /** For a one-character separator, not containing it means not containing the character. */
  lemma {:induction false} NoCharOccurrence(s: string, c: char)
    requires !Contains(s, [c])
    ensures c !in s
  {
    forall k | 0 <= k < |s| ensures s[k] != c {
      assert !OccursAt(s, [c], k);
      assert s[k..k + 1] == [s[k]];
    }
  }

  /** A string that lacks one of the separator's characters does not contain the separator. */
  lemma {:induction false} MissingCharNoOccurrence(s: string, sep: string, k: nat)
    requires k < |sep| && sep[k] !in s
    ensures !Contains(s, sep)
  {
    forall i: nat ensures !OccursAt(s, sep, i) {
      if i + |sep| <= |s| {
        assert s[i + k] in s;
        assert s[i..i + |sep|][k] == s[i + k];
      }
    }
  }

  /** Without an occurrence of the separator, `explode` yields the whole string. */
  lemma {:induction false} SplitWithout(s: string, sep: string)
    requires |sep| > 0 && !Contains(s, sep)
    ensures Split(s, sep) == [s]
  {
  }

  /** An occurrence with none before it is the one `IndexOf` finds. */
  lemma {:induction false} LeftmostIsIndexOf(s: string, sep: string, i: nat)
    requires |sep| > 0 && OccursAt(s, sep, i)
    requires forall j: nat :: j < i ==> !OccursAt(s, sep, j)
    ensures IndexOf(s, sep) == Some(i)
  {
    var r := IndexOf(s, sep);
    assert Contains(s, sep);
    assert OccursAt(s, sep, r.value);
  }

  /** At the leftmost occurrence of the separator, `explode` cuts off the first piece. */
  lemma {:induction false} SplitAtFirst(s: string, sep: string, i: nat)
    requires |sep| > 0 && IndexOf(s, sep) == Some(i)
    ensures Split(s, sep) == [s[..i]] + Split(s[i + |sep|..], sep)
  {
    var rest := s[i + |sep|..];
    assert Split(s, sep) == [s[..i]] + Split(rest, sep);
  }

  /** The characters PHP's `trim` strips by default: space, tab, newline, carriage return,
      NUL and vertical tab. */
  predicate Blank(c: char) {
    c == ' ' || c == '\t' || c == '\n' || c == '\r' || c == '\0' || c as int == 11
  }

  /** Every character of `s` from index `lo` up to (not including) `hi` is blank. */
  predicate BlankBetween(s: string, lo: nat, hi: nat)
    requires lo <= hi <= |s|
  {
    forall k :: lo <= k < hi ==> Blank(s[k])
  }

  /** The index of the first non-blank character of `s` at or after `k`, or `|s|` when
      there is none. */
  function FirstNonBlank(s: string, k: nat): (n: nat)
    requires k <= |s|
    ensures k <= n <= |s| && BlankBetween(s, k, n)
    ensures n < |s| ==> !Blank(s[n])
    decreases |s| - k
  {
    if k < |s| && Blank(s[k]) then FirstNonBlank(s, k + 1) else k
  }

  /** The index just after the last non-blank character of `s` before `m`, or 0 when
      there is none. */
  function EndOfNonBlank(s: string, m: nat): (n: nat)
    requires m <= |s|
    ensures n <= m && BlankBetween(s, n, m)
    ensures n > 0 ==> !Blank(s[n - 1])
    decreases m
  {
    if m > 0 && Blank(s[m - 1]) then EndOfNonBlank(s, m - 1) else m
  }

  /** `r` is `s` with the `i` characters in front of it and the characters from `j` on
      removed, all of them blanks. */
  predicate TrimmedFrom(s: string, r: string, i: nat, j: nat) {
    i <= j <= |s| && r == s[i..j] && BlankBetween(s, 0, i) && BlankBetween(s, j, |s|)
  }

  /** PHP's `trim`: the infix of `s` left after removing blanks from both ends. The
      result neither starts nor ends with a blank, and only blanks were removed. */
  function Trim(s: string): (r: string)
    ensures exists i: nat, j: nat :: TrimmedFrom(s, r, i, j)
    ensures r == [] || (!Blank(r[0]) && !Blank(r[|r| - 1]))
  {
    var i := FirstNonBlank(s, 0);
    if i == |s| then
      assert TrimmedFrom(s, [], i, i);
      []
    else
      var j := EndOfNonBlank(s, |s|);
      assert !Blank(s[i]);
      assert TrimmedFrom(s, s[i..j], i, j);
      s[i..j]
  }

  /** A string that neither starts nor ends with a blank is its own trim. */
  lemma {:induction false} TrimUnchanged(s: string)
    requires s == [] || (!Blank(s[0]) && !Blank(s[|s| - 1]))
    ensures Trim(s) == s
  {
    if s != [] {
      assert FirstNonBlank(s, 0) == 0;
      assert EndOfNonBlank(s, |s|) == |s|;
      assert s[0..|s|] == s;
    }
  }

  /** Trimming an already trimmed string changes nothing. */
  lemma {:induction false} TrimIdempotent(s: string)
    ensures Trim(Trim(s)) == Trim(s)
  {
    TrimUnchanged(Trim(s));
  }

  /** An infix of a string that does not contain the separator does not contain it either. */
  lemma {:induction false} InfixKeepsSeparatorOut(s: string, sep: string, i: nat, j: nat)
    requires i <= j <= |s| && !Contains(s, sep)
    ensures !Contains(s[i..j], sep)
  {
    assert s[i..][..j - i] == s[i..j];
    forall k: nat ensures !OccursAt(s[i..j], sep, k) {
      OccursInPrefix(s[i..], sep, j - i, k);
      OccursInSuffix(s, sep, i, k);
    }
  }

  /** A trimmed piece is a substring of the untrimmed piece, so it cannot contain a
      separator the piece did not contain. */
  lemma {:induction false} TrimKeepsSeparatorOut(s: string, sep: string)
    requires !Contains(s, sep)
    ensures !Contains(Trim(s), sep)
  {
    var r := Trim(s);
    var i: nat, j: nat :| TrimmedFrom(s, r, i, j);
    InfixKeepsSeparatorOut(s, sep, i, j);
  }

  /** Every piece trimmed, in order. */
  function TrimAll(parts: seq<string>): (ts: seq<string>)
    ensures |ts| == |parts| && forall i :: 0 <= i < |parts| ==> ts[i] == Trim(parts[i])
    decreases |parts|
  {
    if parts == [] then [] else [Trim(parts[0])] + TrimAll(parts[1..])
  }

  /** The list `explode(sep, s)` with every piece trimmed, in order and with duplicates kept:
      the way both scripts turn the `domain` parameter into the list of domains to process. */
  function Tokens(s: string, sep: string): (ts: seq<string>)
    requires |sep| > 0
    ensures |ts| == |Split(s, sep)| >= 1
    ensures forall i :: 0 <= i < |ts| ==> ts[i] == Trim(Split(s, sep)[i]) && !Contains(ts[i], sep)
  {
    var parts := Split(s, sep);
    forall i | 0 <= i < |parts| ensures !Contains(Trim(parts[i]), sep) {
      TrimKeepsSeparatorOut(parts[i], sep);
    }
    TrimAll(parts)
  }

  /** A list without the separator is one trimmed item. */
  lemma {:induction false} TokensWithout(s: string, sep: string)
    requires |sep| > 0 && !Contains(s, sep)
    ensures Tokens(s, sep) == [Trim(s)]
  {
    SplitWithout(s, sep);
    var ts := Tokens(s, sep);
    assert ts == [ts[0]];
  }

  /** When `explode` cuts `a` off the front of `s` and continues with `t`, so does the list. */
  lemma {:induction false} TokensCons(s: string, t: string, a: string, sep: string)
    requires |sep| > 0 && Split(s, sep) == [a] + Split(t, sep)
    ensures Tokens(s, sep) == [Trim(a)] + Tokens(t, sep)
  {
    assert ([a] + Split(t, sep))[1..] == Split(t, sep);
  }

  /** At the separator's leftmost occurrence, the list is the first trimmed item followed
      by the list of the rest. */
  lemma {:induction false} TokensAtFirst(s: string, sep: string, i: nat)
    requires |sep| > 0 && OccursAt(s, sep, i)
    requires forall j: nat :: j < i ==> !OccursAt(s, sep, j)
    ensures Tokens(s, sep) == [Trim(s[..i])] + Tokens(s[i + |sep|..], sep)
  {
    LeftmostIsIndexOf(s, sep, i);
    SplitAtFirst(s, sep, i);
    TokensCons(s, s[i + |sep|..], s[..i], sep);
  }

  /** A separator whose first character the first item lacks cuts that item off. */
  lemma {:induction false} TokensAfterSeparator(a: string, sep: string, b: string)
    requires |sep| > 0 && sep[0] !in a
    ensures Tokens(a + sep + b, sep) == [Trim(a)] + Tokens(b, sep)
  {
    var s := a + sep + b;
    var n := |sep|;
    assert OccursAt(s, sep, |a|) by {
      assert s[|a|..|a| + n] == sep;
    }
    assert forall j: nat :: j < |a| ==> !OccursAt(s, sep, j) by {
      forall j: nat | j < |a| ensures !OccursAt(s, sep, j) {
        if j + n <= |s| {
          assert s[j..j + n][0] == a[j];
        }
      }
    }
    TokensAtFirst(s, sep, |a|);
    assert s[..|a|] == a && s[|a| + n..] == b;
  }

  /** Two items around a one-character separator that neither contains. */
  lemma {:induction false} TokensPair(a: string, b: string, c: char)
    requires c !in a && c !in b
    ensures Tokens(a + [c] + b, [c]) == [Trim(a), Trim(b)]
  {
    TokensAfterSeparator(a, [c], b);
    MissingCharNoOccurrence(b, [c], 0);
    TokensWithout(b, [c]);
  }

  /** Behind a leading character, the first non-blank is one further on. */
  lemma {:induction false} FirstNonBlankShift(c: char, t: string, k: nat)
    requires k <= |t|
    ensures FirstNonBlank([c] + t, k + 1) == 1 + FirstNonBlank(t, k)
    decreases |t| - k
  {
    var u := [c] + t;
    if k < |t| {
      assert u[k + 1] == t[k];
      if Blank(t[k]) {
        FirstNonBlankShift(c, t, k + 1);
      }
    }
  }

  /** Behind a leading character, the end of the last non-blank is one further on, as long
      as `t` has a non-blank before `m`. */
  lemma {:induction false} EndOfNonBlankShift(c: char, t: string, m: nat)
    requires m <= |t| && EndOfNonBlank(t, m) > 0
    ensures EndOfNonBlank([c] + t, m + 1) == 1 + EndOfNonBlank(t, m)
    decreases m
  {
    var u := [c] + t;
    assert u[m] == t[m - 1];
    if Blank(t[m - 1]) {
      EndOfNonBlankShift(c, t, m - 1);
    }
  }

  /** A leading blank is trimmed away. */
  lemma {:induction false} TrimLeadingBlank(c: char, t: string)
    requires Blank(c)
    ensures Trim([c] + t) == Trim(t)
  {
    var u := [c] + t;
    var i := FirstNonBlank(t, 0);
    assert FirstNonBlank(u, 0) == FirstNonBlank(u, 1);
    FirstNonBlankShift(c, t, 0);
    if i == |t| {
      TrimBlank(u);
      TrimBlank(t);
    } else {
      var j := EndOfNonBlank(t, |t|);
      TrimCut(t);
      EndOfNonBlankShift(c, t, |t|);
      assert |u| == |t| + 1;
      var lo, hi := FirstNonBlank(u, 0), EndOfNonBlank(u, |u|);
      assert lo == i + 1 && hi == j + 1;
      TrimCut(u);
      assert Trim(u) == u[lo..hi];
      SliceShift(c, t, i, j);
      assert u[lo..hi] == t[i..j];
    }
  }

  /** A string with no non-blank character trims to the empty string. */
  lemma {:induction false} TrimBlank(s: string)
    requires FirstNonBlank(s, 0) == |s|
    ensures Trim(s) == []
  {
  }

  /** A string with a non-blank character trims to the stretch from the first non-blank
      to the last. */
  lemma {:induction false} TrimCut(s: string)
    requires FirstNonBlank(s, 0) < |s|
    ensures FirstNonBlank(s, 0) < EndOfNonBlank(s, |s|)
    ensures Trim(s) == s[FirstNonBlank(s, 0)..EndOfNonBlank(s, |s|)]
  {
    assert !Blank(s[FirstNonBlank(s, 0)]);
  }

  /** Slicing behind a leading character is slicing the rest one place earlier. */
  lemma {:induction false} SliceShift(c: char, t: string, i: nat, j: nat)
    requires i <= j <= |t|
    ensures ([c] + t)[i + 1..j + 1] == t[i..j]
  {
  }
}
