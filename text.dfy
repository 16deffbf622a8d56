/** String operations the app takes from Foundation, restated on `seq<char>`. */
module Text {

  /** The first position of `c` in `s`. */
  function IndexOf(s: string, c: char): (i: nat)
    requires c in s
    ensures i < |s| && s[i] == c && c !in s[..i]
  {
    if s[0] == c then 0 else 1 + IndexOf(s[1..], c)
  }

  /** `parts` glued back together with `sep` between neighbours. */
  function Join(parts: seq<string>, sep: char): string
    requires |parts| >= 1
  {
    if |parts| == 1 then parts[0] else parts[0] + [sep] + Join(parts[1..], sep)
  }

  /** `s.components(separatedBy: String(sep))`: the pieces between the
      occurrences of `sep`; never empty, because a string without `sep` is
      one piece. */
  function Components(s: string, sep: char): (parts: seq<string>)
    ensures |parts| >= 1
    ensures forall i :: 0 <= i < |parts| ==> sep !in parts[i]
    ensures Join(parts, sep) == s
    decreases |s|
  {
    if sep !in s then [s]
    else
      var i := IndexOf(s, sep);
      var rest := Components(s[i + 1..], sep);
      assert s == s[..i] + [sep] + s[i + 1..];
      [s[..i]] + rest
  }

  /** `s.components(separatedBy: String(sep)).first`, which is never nil. */
  function FirstComponent(s: string, sep: char): string {
    Components(s, sep)[0]
  }

  /** The first component is the text before the first `sep`, or all of `s`
      when there is none. */
  lemma {:induction false} FirstComponentIsPrefix(s: string, sep: char)
    ensures sep !in s ==> FirstComponent(s, sep) == s
    ensures sep in s ==> FirstComponent(s, sep) == s[..IndexOf(s, sep)]
  {
  }

  lemma {:induction false} IndexOfAfterPlain(a: string, sep: char, b: string)
    requires sep !in a
    ensures IndexOf(a + [sep] + b, sep) == |a|
  {
    var s := a + [sep] + b;
    if a != [] {
      assert s[0] == a[0] && s[1..] == a[1..] + [sep] + b;
      IndexOfAfterPlain(a[1..], sep, b);
    }
  }

  /** Splitting peels off the text before the first separator. */
  lemma ComponentsCons(a: string, sep: char, b: string)
    requires sep !in a
    ensures Components(a + [sep] + b, sep) == [a] + Components(b, sep)
  {
    var s := a + [sep] + b;
    IndexOfAfterPlain(a, sep, b);
    assert s[..|a|] == a && s[|a| + 1..] == b;
  }

  function ToLowerAscii(c: char): char {
    if 'A' <= c <= 'Z' then (c as int + 32) as char else c
  }

  function FoldCase(s: string): (r: string)
    ensures |r| == |s|
  {
    seq(|s|, i requires 0 <= i < |s| => ToLowerAscii(s[i]))
  }

  /** `needle` occurs in `haystack` at position `i`, up to ASCII case. */
  predicate OccursAt(haystack: string, needle: string, i: int) {
    0 <= i <= |haystack| - |needle| && FoldCase(haystack[i..i + |needle|]) == FoldCase(needle)
  }

  /** `haystack.localizedCaseInsensitiveContains(needle)`, with case folding
      on ASCII letters only; an empty needle is never contained. */
  predicate ContainsIgnoringCase(haystack: string, needle: string) {
    |needle| > 0 && exists i :: 0 <= i <= |haystack| && OccursAt(haystack, needle, i)
  }

  function DigitChar(d: nat): char
    requires d < 10
  {
    "0123456789"[d]
  }

  /** Decimal text of a natural number, as string interpolation prints it. */
  function NatToString(n: nat): (r: string)
    ensures |r| >= 1
    ensures forall i :: 0 <= i < |r| ==> '0' <= r[i] <= '9'
  {
    if n < 10 then [DigitChar(n)] else NatToString(n / 10) + [DigitChar(n % 10)]
  }

  function IntToString(n: int): string {
    if n < 0 then "-" + NatToString(-n) else NatToString(n)
  }
}
