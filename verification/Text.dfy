/** The string operations the servers take from Go's `strings` and `fmt` packages,
    for ASCII text: one `char` stands for one byte. */
module Text {

  datatype Option<+T> = None | Some(value: T)

  const SPACES: set<char> := {' ', '\t', '\n', '\r', 11 as char, 12 as char}

  predicate HasSuffix(s: string, t: string) {
    |t| <= |s| && s[|s| - |t|..] == t
  }

  predicate Contains(s: string, t: string) {
    exists i | 0 <= i <= |s| :: t <= s[i..]
  }

  function UpperChar(c: char): char {
    if 'a' <= c <= 'z' then c - ' ' else c
  }

  function UpperPrefix(s: string, n: nat): (r: string)
    requires n <= |s|
    ensures |r| == n && forall i | 0 <= i < n :: r[i] == UpperChar(s[i])
  {
    if n == 0 then "" else UpperPrefix(s, n - 1) + [UpperChar(s[n - 1])]
  }

  function ToUpper(s: string): (r: string)
    ensures |r| == |s| && forall i | 0 <= i < |s| :: r[i] == UpperChar(s[i])
  {
    UpperPrefix(s, |s|)
  }

  /** The same character but for the case of an ASCII letter. */
  predicate SameLetter(c: char, d: char) {
    || c == d
    || ('a' <= c <= 'z' && c as int == d as int + 32)
    || ('a' <= d <= 'z' && d as int == c as int + 32)
  }

  /** The same text in any case. */
  predicate SameWord(a: string, b: string) {
    |a| == |b| && forall i | 0 <= i < |a| :: SameLetter(a[i], b[i])
  }

  /** Upper-casing makes two texts equal exactly if they differ in case only. */
  lemma SameWordExact(a: string, b: string)
    ensures ToUpper(a) == ToUpper(b) <==> SameWord(a, b)
  {
    if ToUpper(a) == ToUpper(b) {
      forall i | 0 <= i < |a| ensures SameLetter(a[i], b[i]) {
        assert ToUpper(a)[i] == ToUpper(b)[i];
      }
    }
  }

  predicate NoSmall(s: string) {
    forall i | 0 <= i < |s| :: !('a' <= s[i] <= 'z')
  }

  lemma UpperSpells(word: string, t: string)
    requires NoSmall(t)
    ensures ToUpper(word) == t <==> SameWord(word, t)
  {
    assert ToUpper(t) == t;
    SameWordExact(word, t);
  }

  /** `s` starts with `t` in any case. */
  ghost predicate StartsWith(s: string, t: string) {
    exists key, rest :: s == key + rest && SameWord(key, t)
  }

  lemma UpperStarts(s: string, t: string)
    requires NoSmall(t)
    ensures t <= ToUpper(s) <==> StartsWith(s, t)
  {
    if t <= ToUpper(s) {
      var key, rest := s[..|t|], s[|t|..];
      assert forall i | 0 <= i < |t| :: ToUpper(s)[i] == UpperChar(key[i]);
      assert s == key + rest && SameWord(key, t);
    }
    forall key, rest | s == key + rest && SameWord(key, t) ensures t <= ToUpper(s) {
      UpperSpells(key, t);
      assert forall i | 0 <= i < |t| :: ToUpper(s)[i] == ToUpper(key)[i];
    }
  }

  /** `s` has `t` somewhere, in any case. */
  ghost predicate Mentions(s: string, t: string) {
    exists before, key, rest :: s == before + key + rest && SameWord(key, t)
  }

  lemma ContainsMentions(s: string, t: string, i: nat)
    requires NoSmall(t) && i <= |s| && t <= ToUpper(s)[i..]
    ensures Mentions(s, t)
  {
    var u, key := ToUpper(s), s[i..i + |t|];
    forall j | 0 <= j < |t| ensures SameLetter(key[j], t[j]) {
      assert t[j] == u[i..][j] == u[i + j];
    }
    assert s == s[..i] + key + s[i + |t|..] && SameWord(key, t);
  }

  lemma MentionsContains(before: string, key: string, rest: string, t: string)
    requires NoSmall(t) && SameWord(key, t)
    ensures Contains(ToUpper(before + key + rest), t)
  {
    var u := ToUpper(before + key + rest);
    forall j | 0 <= j < |t| ensures u[|before| + j] == t[j] {
      assert (before + key + rest)[|before| + j] == key[j] && SameLetter(key[j], t[j]);
    }
    assert t <= u[|before|..];
  }

  lemma UpperContains(s: string, t: string)
    requires NoSmall(t)
    ensures Contains(ToUpper(s), t) <==> Mentions(s, t)
  {
    if Contains(ToUpper(s), t) {
      var i :| 0 <= i <= |ToUpper(s)| && t <= ToUpper(s)[i..];
      ContainsMentions(s, t, i);
    }
    if Mentions(s, t) {
      var before, key, rest :| s == before + key + rest && SameWord(key, t);
      MentionsContains(before, key, rest, t);
    }
  }

  /** The length that remains of `s[..n]` without its longest tail made of characters of `cut`. */
  function Kept(s: string, n: nat, cut: set<char>): (k: nat)
    requires n <= |s|
    ensures k <= n
    ensures forall i :: k <= i < n ==> s[i] in cut
    ensures k > 0 ==> s[k - 1] !in cut
  {
    if n > 0 && s[n - 1] in cut then Kept(s, n - 1, cut) else n
  }

  lemma {:induction false} KeptIs(s: string, n: nat, cut: set<char>, k: nat)
    requires 0 < k <= n <= |s| && s[k - 1] !in cut && forall i | k <= i < n :: s[i] in cut
    ensures Kept(s, n, cut) == k
    decreases n
  {
    if k < n {
      KeptIs(s, n - 1, cut, k);
    }
  }

  /** Drops the longest tail made of characters of `cut`. */
  function TrimRight(s: string, cut: set<char>): string {
    s[..Kept(s, |s|, cut)]
  }

  /** The position in `s`, from `i` on, of the first character not of `cut`. */
  function Skipped(s: string, i: nat, cut: set<char>): (k: nat)
    requires i <= |s|
    ensures i <= k <= |s|
    ensures k < |s| ==> s[k] !in cut
    decreases |s| - i
  {
    if i < |s| && s[i] in cut then Skipped(s, i + 1, cut) else i
  }

  /** Drops the longest head made of characters of `cut`. */
  function TrimLeft(s: string, cut: set<char>): string {
    s[Skipped(s, 0, cut)..]
  }

  function Trim(s: string, cut: set<char>): string {
    TrimRight(TrimLeft(s, cut), cut)
  }

  predicate AllIn(s: string, cs: set<char>) {
    forall i | 0 <= i < |s| :: s[i] in cs
  }

  /** Neither the first nor the last character is of `cut`. */
  predicate Bare(s: string, cut: set<char>) {
    s != "" ==> s[0] !in cut && s[|s| - 1] !in cut
  }

  /** `s` is `core` with characters of `cut` on either side. */
  predicate Around(s: string, cut: set<char>, left: string, core: string, right: string) {
    s == left + core + right && AllIn(left, cut) && AllIn(right, cut) && Bare(core, cut)
  }

  lemma {:induction false} SkippedIs(s: string, i: nat, cut: set<char>, k: nat)
    requires i <= k <= |s| && (k < |s| ==> s[k] !in cut) && forall j | i <= j < k :: s[j] in cut
    ensures Skipped(s, i, cut) == k
    decreases k - i
  {
    if i < k {
      SkippedIs(s, i + 1, cut, k);
    }
  }

  lemma {:induction false} SkippedBlank(s: string, i: nat, cut: set<char>)
    requires i <= |s|
    ensures forall j | i <= j < Skipped(s, i, cut) :: s[j] in cut
    decreases |s| - i
  {
    if i < |s| && s[i] in cut {
      SkippedBlank(s, i + 1, cut);
    }
  }

  lemma TrimAround(s: string, cut: set<char>, left: string, core: string, right: string)
    requires Around(s, cut, left, core, right)
    ensures Trim(s, cut) == core
  {
    if core == "" {
      SkippedIs(s, 0, cut, |s|);
    } else {
      assert s[|left|] == core[0];
      SkippedIs(s, 0, cut, |left|);
      var t := core + right;
      assert s[|left|..] == t;
      assert t[|core| - 1] == core[|core| - 1];
      KeptIs(t, |t|, cut, |core|);
      assert t[..|core|] == core;
    }
  }

  lemma Thirds(s: string, i: nat, j: nat)
    requires i <= j <= |s|
    ensures s == s[..i] + s[i..j] + s[j..]
  {
  }

  lemma TrimSplits(s: string, cut: set<char>) returns (left: string, right: string)
    ensures Around(s, cut, left, Trim(s, cut), right)
  {
    var i := Skipped(s, 0, cut);
    var k := Kept(s[i..], |s| - i, cut);
    left, right := s[..i], s[i + k..];
    SkippedBlank(s, 0, cut);
    CutTail(s, i, k, cut);
    Thirds(s, i, i + k);
  }

  lemma CutTail(s: string, i: nat, k: nat, cut: set<char>)
    requires i == Skipped(s, 0, cut) && k == Kept(s[i..], |s| - i, cut)
    ensures AllIn(s[i + k..], cut) && s[i..][..k] == s[i..i + k] && Bare(s[i..i + k], cut)
  {
    var t := s[i..];
    forall x | i + k <= x < |s| ensures s[x] in cut {
      assert t[x - i] == s[x];
    }
    if k > 0 {
      assert t[k - 1] == s[i + k - 1];
    }
  }

  /** Trimming gives exactly the core that stands between characters of `cut`. */
  lemma TrimExact(s: string, cut: set<char>, core: string)
    ensures Trim(s, cut) == core <==> exists left, right :: Around(s, cut, left, core, right)
  {
    var left, right := TrimSplits(s, cut);
    forall left, right | Around(s, cut, left, core, right) ensures Trim(s, cut) == core {
      TrimAround(s, cut, left, core, right);
    }
  }

  lemma TrimNothing(s: string, cut: set<char>)
    requires s != "" && s[0] !in cut && s[|s| - 1] !in cut
    ensures Trim(s, cut) == s
  {
  }

  function TrimSpace(s: string): string {
    Trim(s, SPACES)
  }

  /** The position of the first `c` in `s` from `from` on, or the length of `s`. */
  function IndexFrom(s: string, c: char, from: nat): (i: nat)
    requires from <= |s|
    ensures from <= i <= |s|
    ensures forall j :: from <= j < i ==> s[j] != c
    ensures i < |s| ==> s[i] == c
    decreases |s| - from
  {
    if from == |s| || s[from] == c then from else IndexFrom(s, c, from + 1)
  }

  function IndexOf(s: string, c: char): nat {
    IndexFrom(s, c, 0)
  }

  lemma IndexOfUnique(s: string, c: char, i: nat)
    requires i <= |s|
    requires forall j :: 0 <= j < i ==> s[j] != c
    requires i < |s| ==> s[i] == c
    ensures IndexOf(s, c) == i
  {
  }

  /** `strings.Cut` around the first occurrence of one character. */
  function Cut(s: string, c: char): (r: (string, string, bool)) {
    var i := IndexOf(s, c);
    if i < |s| then (s[..i], s[i + 1..], true) else (s, "", false)
  }

  /** `strings.Split` on one character. */
  function Split(s: string, c: char): (parts: seq<string>)
    ensures |parts| > 0
    decreases |s|
  {
    var i := IndexOf(s, c);
    if i < |s| then [s[..i]] + Split(s[i + 1..], c) else [s]
  }

  /** `strings.Join` with a separator of one character. */
  function Join(parts: seq<string>, c: char): string {
    if |parts| == 0 then "" else if |parts| == 1 then parts[0] else parts[0] + [c] + Join(parts[1..], c)
  }

  /** Splitting undoes joining, when no part contains the separator. */
  lemma {:induction false} SplitJoin(parts: seq<string>, c: char)
    requires |parts| > 0
    requires forall i | 0 <= i < |parts| :: Lacks(parts[i], c)
    ensures Split(Join(parts, c), c) == parts
  {
    if |parts| == 1 {
      IndexOfUnique(parts[0], c, |parts[0]|);
    } else {
      SplitJoin(parts[1..], c);
      SplitHead(parts[0], Join(parts[1..], c), c);
    }
  }

  predicate Lacks(s: string, c: char) {
    forall i | 0 <= i < |s| :: s[i] != c
  }

  lemma SplitHead(p: string, rest: string, c: char)
    requires Lacks(p, c)
    ensures Split(p + [c] + rest, c) == [p] + Split(rest, c)
  {
    var s := p + [c] + rest;
    IndexOfUnique(s, c, |p|);
    assert s[..|p|] == p;
    assert s[|p| + 1..] == rest;
  }

  function Digit(d: nat): (c: char)
    requires d < 10
    ensures IsDigit(c)
    ensures c as int - '0' as int == d
  {
    ('0' as int + d) as char
  }

  predicate IsDigit(c: char) {
    '0' <= c <= '9'
  }

  predicate AllDigits(s: string) {
    forall i | 0 <= i < |s| :: IsDigit(s[i])
  }

  /** `%d` of a non-negative number. */
  function Dec(n: nat): (s: string)
    ensures s != "" && AllDigits(s)
  {
    if n < 10 then [Digit(n)] else Dec(n / 10) + [Digit(n % 10)]
  }

  /** `%d` of any number. */
  function DecInt(n: int): string {
    if n < 0 then "-" + Dec(-n) else Dec(n)
  }

  function ParseDec(s: string): nat
    requires AllDigits(s)
  {
    if s == "" then 0 else 10 * ParseDec(s[..|s| - 1]) + (s[|s| - 1] as int - '0' as int)
  }

  lemma {:induction false} DecRoundTrip(n: nat)
    ensures ParseDec(Dec(n)) == n
  {
    var s := Dec(n);
    if n < 10 {
      assert s[..0] == "";
    } else {
      DecRoundTrip(n / 10);
      assert s[..|s| - 1] == Dec(n / 10);
    }
  }

  /** A signed number is read back from its sign and its digits. */
  lemma DecIntReads(n: int)
    ensures var s := DecInt(n);
            if n < 0 then s[0] == '-' && AllDigits(s[1..]) && ParseDec(s[1..]) == -n
                else AllDigits(s) && ParseDec(s) == n
  {
    if n < 0 {
      assert DecInt(n)[1..] == Dec(-n);
      DecRoundTrip(-n);
    } else {
      DecRoundTrip(n);
    }
  }

  /** Decimal writing is injective. */
  lemma DecInjective(m: nat, n: nat)
    requires Dec(m) == Dec(n)
    ensures m == n
  {
    DecRoundTrip(m);
    DecRoundTrip(n);
  }

  /** Where the digits from `i` on end. */
  function DigitsEnd(s: string, i: nat): (n: nat)
    requires i <= |s|
    ensures i <= n <= |s| && AllDigits(s[i..n])
    decreases |s| - i
  {
    if i < |s| && IsDigit(s[i]) then DigitsEnd(s, i + 1) else i
  }

  lemma {:induction false} DigitsEndAt(s: string, i: nat, n: nat)
    requires i <= n <= |s| && (forall j | i <= j < n :: IsDigit(s[j])) && (n < |s| ==> !IsDigit(s[n]))
    ensures DigitsEnd(s, i) == n
    decreases n - i
  {
    if i < n {
      DigitsEndAt(s, i + 1, n);
    }
  }

  /** Digits after a start of length `k` are read up to what follows them. */
  lemma NumberRead(start: string, n: nat, rest: string)
    requires rest != "" ==> !IsDigit(rest[0])
    ensures var s, end := start + Dec(n) + rest, |start + Dec(n)|;
            DigitsEnd(s, |start|) == end && s[|start|..end] == Dec(n) && s[end..] == rest && ParseDec(Dec(n)) == n
  {
    var s, digits := start + Dec(n) + rest, Dec(n);
    forall j | |start| <= j < |start + digits| ensures IsDigit(s[j]) {
      assert s[j] == digits[j - |start|];
    }
    assert rest != "" ==> s[|start + digits|] == rest[0];
    DigitsEndAt(s, |start|, |start + digits|);
    assert s[|start|..|start + digits|] == digits;
    DecRoundTrip(n);
  }

  lemma Regroup<T>(a: seq<T>, b: seq<T>, c: seq<T>)
    ensures a + (b + c) == a + b + c
  {
  }
}
