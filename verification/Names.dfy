/** Numbers in names: decimal suffixes that make a name unused, and the slugs names are built from. */
module Names {

  function Digit(d: nat): char
    requires d < 16
  {
    "0123456789abcdef"[d]
  }

  function Decimal(n: nat): (s: string)
    ensures |s| > 0 && forall c :: c in s ==> '0' <= c <= '9'
  {
    if n < 10 then [Digit(n)] else Decimal(n / 10) + [Digit(n % 10)]
  }

  lemma DigitInjective(a: nat, b: nat)
    requires a < 16 && b < 16 && Digit(a) == Digit(b)
    ensures a == b
  {
  }

  lemma {:induction false} DecimalInjective(a: nat, b: nat)
    requires Decimal(a) == Decimal(b)
    ensures a == b
    decreases a
  {
    var s, t := Decimal(a), Decimal(b);
    assert s[|s| - 1] == Digit(a % 10) && t[|t| - 1] == Digit(b % 10);
    DigitInjective(a % 10, b % 10);
    hide Digit;
    if a >= 10 && b >= 10 {
      assert Decimal(a / 10) == s[..|s| - 1] && Decimal(b / 10) == t[..|t| - 1];
      DecimalInjective(a / 10, b / 10);
    }
  }

  /** The number a text of decimal digits stands for. */
  function NumberOf(s: string): int {
    if s == "" then 0 else 10 * NumberOf(s[..|s| - 1]) + (s[|s| - 1] as int - '0' as int)
  }

  lemma {:induction false} DecimalTells(n: nat)
    ensures NumberOf(Decimal(n)) == n && (|Decimal(n)| > 1 ==> Decimal(n)[0] != '0')
  {
    var s := Decimal(n);
    if n >= 10 {
      DecimalTells(n / 10);
      assert s[..|s| - 1] == Decimal(n / 10) && s[0] == Decimal(n / 10)[0];
      assert n / 10 > 0 ==> Decimal(n / 10)[0] != '0' by { FirstDigit(n / 10); }
    } else {
      assert s[..0] == "";
    }
  }

  lemma {:induction false} FirstDigit(n: nat)
    ensures n > 0 ==> Decimal(n)[0] != '0'
  {
    if n >= 10 {
      FirstDigit(n / 10);
    }
  }

  function LowerChar(c: char): char {
    if 'A' <= c <= 'Z' then ((c as int) + 32) as char else c
  }

  /** A capital becomes the small letter with its place in the alphabet, anything else stays. */
  lemma CaseFolds(c: char)
    ensures 'A' <= c <= 'Z' ==> LowerChar(c) as int - 'a' as int == c as int - 'A' as int
    ensures !('A' <= c <= 'Z') ==> LowerChar(c) == c
  {
  }

  /** ASCII case folding only. */
  function Lower(s: string): (r: string)
    ensures |r| == |s| && forall i :: 0 <= i < |s| ==> r[i] == LowerChar(s[i])
  {
    seq(|s|, i requires 0 <= i < |s| => LowerChar(s[i]))
  }

  function SlugChar(c: char): char {
    if c == ' ' || c == '/' || c == '\\' || c == ':' then '-' else LowerChar(c)
  }

  function SlugChars(s: string): string {
    if s == "" then "" else [SlugChar(s[0])] + SlugChars(s[1..])
  }

  function TrimLeft(s: string): string {
    if s != "" && s[0] == ' ' then TrimLeft(s[1..]) else s
  }

  function TrimRight(s: string): string {
    if s != "" && s[|s| - 1] == ' ' then TrimRight(s[..|s| - 1]) else s
  }

  /** Blanks are the only white space that is trimmed. */
  function Slug(s: string): string {
    SlugChars(TrimRight(TrimLeft(s)))
  }

  predicate Blank(s: string) {
    forall c :: c in s ==> c == ' '
  }

  lemma {:induction false} TrimmedLeft(s: string)
    ensures |TrimLeft(s)| <= |s| && Blank(s[..|s| - |TrimLeft(s)|]) && s[|s| - |TrimLeft(s)|..] == TrimLeft(s)
    ensures TrimLeft(s) != "" ==> TrimLeft(s)[0] != ' '
  {
    if s != "" && s[0] == ' ' {
      TrimmedLeft(s[1..]);
      var n := |s| - |TrimLeft(s)|;
      assert s[..n] == [s[0]] + s[1..][..n - 1];
    }
  }

  lemma {:induction false} TrimmedRight(s: string)
    ensures |TrimRight(s)| <= |s| && Blank(s[|TrimRight(s)|..]) && s[..|TrimRight(s)|] == TrimRight(s)
    ensures TrimRight(s) != "" ==> TrimRight(s)[|TrimRight(s)| - 1] != ' '
  {
    if s != "" && s[|s| - 1] == ' ' {
      TrimmedRight(s[..|s| - 1]);
      var n := |TrimRight(s)|;
      assert s[n..] == s[..|s| - 1][n..] + [s[|s| - 1]];
    }
  }

  lemma {:induction false} SlugCharsEach(s: string)
    ensures |SlugChars(s)| == |s|
    ensures forall i :: 0 <= i < |s| ==> SlugChars(s)[i] == if s[i] in " /\\:" then '-' else LowerChar(s[i])
  {
    if s != "" {
      SlugCharsEach(s[1..]);
    }
  }

  /** A slug is the text without the blanks at its ends, in small letters, with a dash for each blank, slash, backslash and colon. */
  lemma SlugIs(s: string) returns (from: nat, to: nat)
    ensures from <= to <= |s| && Blank(s[..from]) && Blank(s[to..]) && (from < to ==> s[from] != ' ' && s[to - 1] != ' ')
    ensures |Slug(s)| == to - from
    ensures forall i :: from <= i < to ==> Slug(s)[i - from] == if s[i] in " /\\:" then '-' else LowerChar(s[i])
  {
    var left := TrimLeft(s);
    var right := TrimRight(left);
    TrimmedLeft(s);
    TrimmedRight(left);
    SlugCharsEach(right);
    from, to := |s| - |left|, |s| - |left| + |right|;
    assert right == s[from..to];
    assert s[to..] == left[|right|..];
  }

  /** The `n`-th candidate for a name: itself, then with a number from 2 between two fixed texts. */
  function Numbered(base: string, left: string, n: nat, right: string): string {
    if n < 2 then base else base + left + Decimal(n) + right
  }

  lemma NumberedDiffer(base: string, left: string, right: string, a: nat, b: nat)
    requires 1 <= a < b && left != ""
    ensures Numbered(base, left, a, right) != Numbered(base, left, b, right)
  {
    var s, t := Numbered(base, left, a, right), Numbered(base, left, b, right);
    if s == t {
      var k := |base| + |left|;
      assert |t| > |base|;
      assert s[k..|s| - |right|] == Decimal(a);
      assert t[k..|t| - |right|] == Decimal(b);
      DecimalInjective(a, b);
    }
  }

  /** If the first n - 1 candidates are all in use, there are at least that many names in use. */
  lemma {:induction false} NumberedNeedRoom(base: string, left: string, right: string, used: set<string>, n: nat)
    requires n >= 1 && left != "" && forall i :: 1 <= i < n ==> Numbered(base, left, i, right) in used
    ensures n - 1 <= |used|
  {
    if n > 1 {
      var last := Numbered(base, left, n - 1, right);
      forall i | 1 <= i < n - 1
        ensures Numbered(base, left, i, right) in used - {last}
      {
        NumberedDiffer(base, left, right, i, n - 1);
      }
      NumberedNeedRoom(base, left, right, used - {last}, n - 1);
    }
  }

  /** The first candidate that is not used: the search ends because only finitely many names are. */
  method FirstUnused(base: string, left: string, right: string, used: set<string>) returns (name: string, k: nat)
    requires left != ""
    ensures name !in used && k >= 1 && name == Numbered(base, left, k, right)
    ensures forall i :: 1 <= i < k ==> Numbered(base, left, i, right) in used
  {
    name, k := base, 1;
    while name in used
      invariant k >= 1 && name == Numbered(base, left, k, right)
      invariant forall i :: 1 <= i < k ==> Numbered(base, left, i, right) in used
      decreases |used| + 1 - k
    {
      NumberedNeedRoom(base, left, right, used, k + 1);
      k := k + 1;
      name := base + left + Decimal(k) + right;
    }
  }
}
