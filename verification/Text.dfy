/** Strings as the tools build them: decimal integers, separators, substrings, trimming. */
module Text {
  import opened Prelude

  function Digit(d: nat): char
    requires d < 10
  {
    ('0' as int + d) as char
  }

  function Digits(n: nat): (s: string)
    ensures s != ""
    ensures forall c | c in s :: '0' <= c <= '9'
  {
    if n < 10 then [Digit(n)] else Digits(n / 10) + [Digit(n % 10)]
  }

  /** `str(i)` */
  function Str(i: int): string {
    if i < 0 then "-" + Digits(-i) else Digits(i)
  }

  lemma {:induction false} DigitsInjective(a: nat, b: nat)
    requires Digits(a) == Digits(b)
    ensures a == b
  {
    var s, t := Digits(a), Digits(b);
    assert s[|s| - 1] == t[|t| - 1];
    assert (a < 10 <==> |s| == 1) && (b < 10 <==> |t| == 1);
    if a >= 10 {
      assert s[..|s| - 1] == Digits(a / 10) && t[..|t| - 1] == Digits(b / 10);
      DigitsInjective(a / 10, b / 10);
    }
  }

  lemma StrInjective(a: int, b: int)
    requires Str(a) == Str(b)
    ensures a == b
  {
    var s, t := Str(a), Str(b);
    assert a < 0 <==> s[0] == '-' by {
      assert a >= 0 ==> s[0] in Digits(a);
    }
    assert b < 0 <==> t[0] == '-' by {
      assert b >= 0 ==> t[0] in Digits(b);
    }
    if a < 0 {
      assert s[1..] == Digits(-a) && t[1..] == Digits(-b);
      DigitsInjective(-a, -b);
    } else {
      DigitsInjective(a, b);
    }
  }

  /** No decimal integer contains a character outside the digits and the minus sign. */
  lemma StrFree(i: int, c: char)
    requires c != '-' && !('0' <= c <= '9')
    ensures c !in Str(i)
  {
  }

  /** Text before the first `c` is determined when neither part contains `c`. */
  lemma SplitFirst(a: string, b: string, a': string, b': string, c: char)
    requires a + [c] + b == a' + [c] + b'
    requires c !in a && c !in a'
    ensures a == a' && b == b'
  {
    var s := a + [c] + b;
    var s' := a' + [c] + b';
    assert s[|a|] == c && s'[|a'|] == c;
    assert forall i | 0 <= i < |a| :: s[i] == a[i] && a[i] in a;
    assert forall i | 0 <= i < |a'| :: s'[i] == a'[i] && a'[i] in a';
    assert |a| == |a'|;
    assert a == s[..|a|] && a' == s'[..|a'|];
    assert b == s[|a| + 1..] && b' == s'[|a'| + 1..];
  }

  /** `needle in text` */
  predicate Contains(text: string, needle: string) {
    exists k: nat | k <= |text| :: OccursAt(text, needle, k)
  }

  predicate OccursAt(text: string, needle: string, k: nat) {
    k + |needle| <= |text| && text[k..k + |needle|] == needle
  }

  lemma ContainsSuffix(a: string, needle: string)
    ensures Contains(a + needle, needle)
  {
    assert OccursAt(a + needle, needle, |a|);
  }

  // `str.isspace` on Latin-1 characters.
  predicate IsSpace(c: char) { 9 <= c as int <= 13 || 28 <= c as int <= 32 || c as int == 0x85 || c as int == 0xA0 }

  function RStrip(s: string): (r: string)
    ensures r <= s
  {
    if s != "" && IsSpace(s[|s| - 1]) then RStrip(s[..|s| - 1]) else s
  }

  function LStrip(s: string): (r: string)
  {
    if s != "" && IsSpace(s[0]) then LStrip(s[1..]) else s
  }

  function Strip(s: string): string { RStrip(LStrip(s)) }

  predicate Trimmed(s: string) {
    s != "" && !IsSpace(s[0]) && !IsSpace(s[|s| - 1])
  }

  /** Text with no outer blanks, and only such text, survives trimming unchanged. */
  lemma StripFixed(s: string)
    ensures s != "" ==> (Strip(s) == s <==> Trimmed(s))
    ensures Strip("") == ""
  {
    if s != "" {
      LStripLength(s);
    }
  }

  lemma {:induction false} LStripLength(s: string)
    ensures |LStrip(s)| <= |s|
    ensures s != "" && IsSpace(s[0]) ==> |LStrip(s)| < |s|
  {
    if s != "" && IsSpace(s[0]) {
      LStripLength(s[1..]);
    }
  }

  /** Trimming cuts blanks and nothing else from both ends, and cuts them all. */
  lemma StripMeaning(s: string) returns (left: string, right: string)
    ensures s == left + Strip(s) + right
    ensures forall c | c in left + right :: IsSpace(c)
    ensures Strip(s) == "" || Trimmed(Strip(s))
  {
    left := LStripMeaning(s);
    right := RStripMeaning(LStrip(s));
    LStripFront(s);
    RStripEnds(LStrip(s));
    Assoc(left, Strip(s), right);
  }

  lemma {:induction false} LStripMeaning(s: string) returns (left: string)
    ensures s == left + LStrip(s) && forall c | c in left :: IsSpace(c)
  {
    left := "";
    if s != "" && IsSpace(s[0]) {
      left := LStripMeaning(s[1..]);
      left := [s[0]] + left;
      assert s == [s[0]] + s[1..];
    }
  }

  lemma {:induction false} RStripMeaning(s: string) returns (right: string)
    ensures s == RStrip(s) + right && forall c | c in right :: IsSpace(c)
  {
    right := "";
    if s != "" && IsSpace(s[|s| - 1]) {
      var k := |s| - 1;
      right := RStripMeaning(s[..k]);
      Assoc(RStrip(s), right, [s[k]]);
      right := right + [s[k]];
    }
  }

  // Lexicographic comparison of strings by code point, Python's `<=`.
  predicate LexLe(a: string, b: string) {
    a == "" || (b != "" && (a[0] < b[0] || (a[0] == b[0] && LexLe(a[1..], b[1..]))))
  }

  ghost predicate FirstDifference(a: string, b: string, k: nat) {
    k < |a| && k < |b| && a[..k] == b[..k] && a[k] < b[k]
  }

  /** A text comes before another exactly when it begins it, or has the smaller character where they first differ. */
  lemma {:induction false} LexMeaning(a: string, b: string)
    ensures LexLe(a, b) <==> a <= b || exists k: nat :: FirstDifference(a, b, k)
  {
    if a != "" && b != "" {
      var a', b' := a[1..], b[1..];
      assert a == [a[0]] + a' && b == [b[0]] + b';
      if a[0] == b[0] {
        LexMeaning(a', b');
        forall k: nat ensures FirstDifference(a, b, k + 1) <==> FirstDifference(a', b', k) {
          assert k < |a'| ==> a[..k + 1] == [a[0]] + a'[..k];
          assert k < |b'| ==> b[..k + 1] == [b[0]] + b'[..k];
          assert k < |a'| ==> a[..k + 1][1..] == a'[..k];
          assert k < |b'| ==> b[..k + 1][1..] == b'[..k];
        }
        if k: nat :| FirstDifference(a, b, k) {
          assert FirstDifference(a', b', k - 1);
        }
        if k: nat :| FirstDifference(a', b', k) {
          assert FirstDifference(a, b, k + 1);
        }
      } else {
        assert a[..0] == b[..0];
        assert a[0] < b[0] ==> FirstDifference(a, b, 0);
        assert forall k: nat | k > 0 && k < |a| && k < |b| :: a[..k][0] == a[0] && b[..k][0] == b[0];
      }
    }
  }

  lemma {:induction false} LexTotal(a: string, b: string)
    ensures LexLe(a, b) || LexLe(b, a)
  {
    if a != "" && b != "" && a[0] == b[0] {
      LexTotal(a[1..], b[1..]);
    }
  }

  lemma {:induction false} LexTransitive(a: string, b: string, c: string)
    requires LexLe(a, b) && LexLe(b, c)
    ensures LexLe(a, c)
  {
    if a != "" && a[0] == b[0] == c[0] {
      LexTransitive(a[1..], b[1..], c[1..]);
    }
  }

  lemma {:induction false} LexAntisymmetric(a: string, b: string)
    requires LexLe(a, b) && LexLe(b, a)
    ensures a == b
  {
    if a != "" {
      LexAntisymmetric(a[1..], b[1..]);
      assert a == [a[0]] + a[1..] && b == [b[0]] + b[1..];
    }
  }

  /** `s.replace(c, put)` for a single character `c`. */
  function Replace(s: string, c: char, put: string): string {
    if s == "" then "" else Replace(s[..|s| - 1], c, put) + (if s[|s| - 1] == c then put else [s[|s| - 1]])
  }

  lemma {:induction false} ReplaceAppend(a: string, b: string, c: char, put: string)
    ensures Replace(a + b, c, put) == Replace(a, c, put) + Replace(b, c, put)
  {
    if b == "" {
      assert a + b == a;
    } else {
      var k := |b| - 1;
      assert (a + b)[..|a + b| - 1] == a + b[..k];
      ReplaceAppend(a, b[..k], c, put);
    }
  }

  /** What is trimmed once is trimmed. */
  lemma StripIdempotent(s: string)
    ensures Strip(Strip(s)) == Strip(s)
  {
    LStripFront(s);
    RStripEnds(LStrip(s));
    StripFixed(Strip(s));
  }

  lemma {:induction false} LStripFront(s: string)
    ensures LStrip(s) != "" ==> !IsSpace(LStrip(s)[0])
  {
    if s != "" && IsSpace(s[0]) {
      LStripFront(s[1..]);
    }
  }

  lemma {:induction false} RStripEnds(s: string)
    ensures RStrip(s) != "" ==> RStrip(s)[0] == s[0] && !IsSpace(RStrip(s)[|RStrip(s)| - 1])
  {
    if s != "" && IsSpace(s[|s| - 1]) {
      RStripEnds(s[..|s| - 1]);
    }
  }

  // The stretches between blanks, empty ones included.
  function Fragments(s: string): (r: seq<string>)
    ensures r != []
  {
    if s == "" then [""]
    else
      var k := |s| - 1;
      var before := Fragments(s[..k]);
      if IsSpace(s[k]) then before + [""] else ExtendLast(before, [s[k]])
  }

  predicate IsWord(s: string) { s != "" }

  /** `s.split()` */
  function Words(s: string): seq<string> { Filter(Fragments(s), IsWord) }

  function Concat(parts: seq<string>): string {
    if parts == [] then "" else Concat(parts[..|parts| - 1]) + parts[|parts| - 1]
  }

  predicate IsInk(c: char) { !IsSpace(c) }

  function ExtendLast(parts: seq<string>, t: string): seq<string>
    requires parts != []
  {
    parts[..|parts| - 1] + [parts[|parts| - 1] + t]
  }

  lemma ConcatExtend(parts: seq<string>, t: string)
    requires parts != []
    ensures Concat(ExtendLast(parts, t)) == Concat(parts) + t
    ensures Concat(parts + [t]) == Concat(parts) + t
  {
    var n := |parts| - 1;
    assert ExtendLast(parts, t)[..n] == parts[..n] && (parts + [t])[..n + 1] == parts;
    Assoc(Concat(parts[..n]), parts[n], t);
  }

  lemma {:induction false} FragmentsMeaning(s: string)
    ensures Concat(Fragments(s)) == Filter(s, IsInk)
  {
    if s == "" {
      assert [""][..0] == [];
    } else {
      var k := |s| - 1;
      FragmentsMeaning(s[..k]);
      ConcatExtend(Fragments(s[..k]), if IsSpace(s[k]) then "" else [s[k]]);
      FilterNext(s, k, IsInk);
      assert Concat(Fragments(s[..k])) + "" == Concat(Fragments(s[..k]));
    }
  }

  predicate NoBlanks(s: string) { forall c | c in s :: !IsSpace(c) }

  lemma {:induction false} FragmentsHoldNoBlanks(s: string)
    ensures forall f | f in Fragments(s) :: NoBlanks(f)
  {
    if s != "" {
      var before := Fragments(s[..|s| - 1]);
      var last := before[|before| - 1];
      FragmentsHoldNoBlanks(s[..|s| - 1]);
      assert last in before && forall f | f in before[..|before| - 1] :: f in before;
      assert !IsSpace(s[|s| - 1]) ==> NoBlanks(last + [s[|s| - 1]]);
    }
  }

  lemma {:induction false} ConcatWords(parts: seq<string>)
    ensures Concat(Filter(parts, IsWord)) == Concat(parts)
  {
    if parts != [] {
      var k := |parts| - 1;
      ConcatWords(parts[..k]);
      var kept := Filter(parts[..k], IsWord);
      assert (kept + [parts[k]])[..|kept|] == kept;
      assert kept + [] == kept && Concat(kept) + "" == Concat(kept);
    }
  }

  /** The words of a text are its stretches without blanks: none is empty, none holds a blank, and nothing but blanks is lost. */
  lemma WordsMeaning(s: string)
    ensures forall word | word in Words(s) :: word != "" && NoBlanks(word)
    ensures Concat(Words(s)) == Filter(s, IsInk)
  {
    FragmentsMeaning(s);
    FragmentsHoldNoBlanks(s);
    ConcatWords(Fragments(s));
  }

  /** ... and a text without blanks is one word, and blanks are where words end. */
  lemma WordsSplitAtBlanks(s: string, blank: char, t: string)
    requires IsSpace(blank)
    ensures Words(s + [blank] + t) == Words(s) + Words(t)
    ensures s != "" && NoBlanks(s) ==> Words(s) == [s]
  {
    FragmentsSplit(s, blank, t);
    FilterAppend(Fragments(s), Fragments(t), IsWord);
    if s != "" && NoBlanks(s) {
      OneFragment(s);
      assert [s][..0] == [];
    }
  }

  lemma {:induction false} OneFragment(s: string)
    requires NoBlanks(s)
    ensures Fragments(s) == [s]
  {
    if s != "" {
      var k := |s| - 1;
      assert s == s[..k] + [s[k]];
      OneFragment(s[..k]);
    }
  }

  // The stretches after one more character.
  function Grown(parts: seq<string>, c: char): seq<string>
    requires parts != []
  {
    if IsSpace(c) then parts + [""] else ExtendLast(parts, [c])
  }

  lemma FragmentsSnoc(s: string, c: char)
    ensures Fragments(s + [c]) == Grown(Fragments(s), c)
  {
    assert (s + [c])[..|s|] == s;
  }

  lemma GrownBehind(a: seq<string>, b: seq<string>, c: char)
    requires b != []
    ensures Grown(a + b, c) == a + Grown(b, c)
  {
  }

  lemma {:induction false} FragmentsSplit(s: string, blank: char, t: string)
    requires IsSpace(blank)
    ensures Fragments(s + [blank] + t) == Fragments(s) + Fragments(t)
  {
    var start := s + [blank];
    FragmentsSnoc(s, blank);
    if t == "" {
      assert start + t == start;
    } else {
      var front, last := t[..|t| - 1], t[|t| - 1];
      assert t == front + [last];
      FragmentsSplit(s, blank, front);
      Assoc(start, front, [last]);
      FragmentsSnoc(start + front, last);
      FragmentsSnoc(front, last);
      GrownBehind(Fragments(s), Fragments(front), last);
    }
  }
}
