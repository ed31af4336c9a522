/** The Python string operations the models share. */
module PyText {
  import opened FiniteSets

  /** `str.isspace` for one character. */
  predicate IsSpace(c: char) {
    '\U{9}' <= c <= '\U{D}' || '\U{1C}' <= c <= ' ' || c == '\U{85}' || c == '\U{A0}' || c == '\U{1680}' ||
    '\U{2000}' <= c <= '\U{200A}' || c == '\U{2028}' || c == '\U{2029}' || c == '\U{202F}' || c == '\U{205F}' ||
    c == '\U{3000}'
  }

  lemma SpacesMean(c: char)
    ensures IsSpace(c) <==>
            c as int in {9, 10, 11, 12, 13, 28, 29, 30, 31, 32, 133, 160, 5760, 8232, 8233, 8239, 8287, 12288} ||
            8192 <= c as int <= 8202
  {
  }

  function LStrip(s: string, drop: char -> bool): string {
    if s != [] && drop(s[0]) then LStrip(s[1..], drop) else s
  }

  function RStrip(s: string, drop: char -> bool): string {
    if s != [] && drop(s[|s|-1]) then RStrip(s[..|s|-1], drop) else s
  }

  function StripOf(s: string, drop: char -> bool): string {
    RStrip(LStrip(s, drop), drop)
  }

  function Strip(s: string): string { StripOf(s, IsSpace) }

  lemma {:induction false} StripEnds(s: string, drop: char -> bool)
    ensures var r := RStrip(s, drop); |r| <= |s| && r == s[..|r|] && (r == [] || !drop(r[|r|-1]))
    ensures var l := LStrip(s, drop); l == [] || !drop(l[0])
    decreases |s|
  {
    if s != [] && drop(s[0]) { StripEnds(s[1..], drop); }
    if s != [] && drop(s[|s|-1]) { StripEnds(s[..|s|-1], drop); }
  }

  lemma StripIdempotent(s: string, drop: char -> bool)
    ensures StripOf(StripOf(s, drop), drop) == StripOf(s, drop)
  {
    StripEnds(s, drop);
    StripEnds(LStrip(s, drop), drop);
  }

  predicate AllOf(s: string, drop: char -> bool) { forall i | 0 <= i < |s| :: drop(s[i]) }

  /** Stripping removes what surrounds a text with clean ends, and only that. */
  lemma StripPadded(pre: string, s: string, post: string, drop: char -> bool)
    requires AllOf(pre, drop) && AllOf(post, drop) && s != "" && !drop(s[0]) && !drop(s[|s|-1])
    ensures StripOf(pre + s + post, drop) == s
  {
    LStripPadded(pre, s + post, drop);
    assert pre + s + post == pre + (s + post);
    RStripPadded(s, post, drop);
  }

  lemma {:induction false} LStripPadded(pre: string, s: string, drop: char -> bool)
    requires AllOf(pre, drop) && s != "" && !drop(s[0])
    ensures LStrip(pre + s, drop) == s
  {
    if pre == "" {
      assert pre + s == s;
    } else {
      assert (pre + s)[0] == pre[0] && (pre + s)[1..] == pre[1..] + s;
      LStripPadded(pre[1..], s, drop);
    }
  }

  lemma {:induction false} RStripPadded(s: string, post: string, drop: char -> bool)
    requires AllOf(post, drop) && s != "" && !drop(s[|s|-1])
    ensures RStrip(s + post, drop) == s
  {
    if post == "" {
      assert s + post == s;
    } else {
      var n := |s + post| - 1;
      assert (s + post)[n] == post[|post|-1] && (s + post)[..n] == s + post[..|post|-1];
      RStripPadded(s, post[..|post|-1], drop);
    }
  }

  /** A text of nothing else strips to nothing. */
  lemma {:induction false} StripBlank(s: string, drop: char -> bool)
    requires AllOf(s, drop)
    ensures StripOf(s, drop) == ""
  {
    if s != "" {
      assert AllOf(s[1..], drop);
      StripBlank(s[1..], drop);
    }
  }

  /** `a < b` on strings: lexicographic by code point. */
  predicate Less(a: string, b: string) {
    b != [] && (a == [] || a[0] < b[0] || (a[0] == b[0] && Less(a[1..], b[1..])))
  }

  /** The order by the first difference, a prefix coming first. */
  lemma {:induction false} LessIff(a: string, b: string)
    ensures Less(a, b) <==>
            exists k :: 0 <= k <= |a| && k < |b| && a[..k] == b[..k] && (k == |a| || a[k] < b[k])
  {
    if Less(a, b) {
      if a == "" || a[0] < b[0] {
        assert a[..0] == b[..0];
      } else {
        LessIff(a[1..], b[1..]);
        var k :| 0 <= k <= |a| - 1 && k < |b| - 1 && a[1..][..k] == b[1..][..k] &&
                 (k == |a| - 1 || a[1..][k] < b[1..][k]);
        assert a[..k + 1] == [a[0]] + a[1..][..k] && b[..k + 1] == [b[0]] + b[1..][..k];
      }
    }
    if k :| 0 <= k <= |a| && k < |b| && a[..k] == b[..k] && (k == |a| || a[k] < b[k]) {
      if k > 0 {
        assert a[..k][0] == b[..k][0];
        assert a[1..][..k - 1] == a[..k][1..] && b[1..][..k - 1] == b[..k][1..];
        LessIff(a[1..], b[1..]);
      }
    }
  }

  lemma {:induction false} LessTotal(a: string, b: string)
    ensures a == b || Less(a, b) || Less(b, a)
  {
    if a != [] && b != [] && a[0] == b[0] {
      LessTotal(a[1..], b[1..]);
      if a[1..] == b[1..] { assert a == [a[0]] + a[1..] == b; }
    }
  }

  lemma {:induction false} LessIrreflexive(a: string)
    ensures !Less(a, a)
  {
    if a != [] { LessIrreflexive(a[1..]); }
  }

  lemma {:induction false} LessTransitive(a: string, b: string, c: string)
    requires Less(a, b) && Less(b, c)
    ensures Less(a, c)
  {
    if a != [] && a[0] == b[0] == c[0] { LessTransitive(a[1..], b[1..], c[1..]); }
  }

  /** `sorted` is well defined on strings. */
  lemma LessOrders(keys: set<string>)
    ensures Ordered(keys, Less)
  {
    forall x, y | x in keys && y in keys ensures x == y || Less(x, y) || Less(y, x) { LessTotal(x, y); }
    forall x, y, z | x in keys && y in keys && z in keys && Less(x, y) && Less(y, z) ensures Less(x, z) {
      LessTransitive(x, y, z);
    }
  }

  /** `sorted` on a set of strings. */
  method SortStrings(keys: set<string>) returns (list: seq<string>)
    ensures forall k :: k in list <==> k in keys
    ensures forall i, j | 0 <= i < j < |list| :: Less(list[i], list[j]) && list[i] != list[j]
  {
    LessOrders(keys);
    list := SortSet(keys, Less);
  }
}
