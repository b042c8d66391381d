/** The little text handling the configuration needs: trimming, folding case,
    decimal numbers. Strings are ASCII, one character a byte. */
module Text {
  import opened Outcomes

  predicate IsSpace(c: char) {
    c == ' ' || c == '\t' || c == '\n' || c == '\r'
  }

  function TrimLeft(s: string): string {
    if s != "" && IsSpace(s[0]) then TrimLeft(s[1..]) else s
  }

  function TrimRight(s: string): string {
    if s != "" && IsSpace(s[|s|-1]) then TrimRight(s[..|s|-1]) else s
  }

  function TrimSpace(s: string): string { TrimRight(TrimLeft(s)) }

  function Lower(c: char): char {
    if 'A' <= c <= 'Z' then c - 'A' + 'a' else c
  }

  function ToLower(s: string): (r: string)
    ensures |r| == |s|
  {
    if s == "" then "" else [Lower(s[0])] + ToLower(s[1..])
  }

  /** A word as it is compared: trimmed, in small letters. */
  function Spelled(w: string): string { ToLower(TrimSpace(w)) }

  predicate EqualFold(a: string, b: string) { ToLower(a) == ToLower(b) }

  /** `s` without the ending, if it ends so. */
  function TrimSuffix(s: string, suffix: string): string {
    if |suffix| <= |s| && s[|s|-|suffix|..] == suffix then s[..|s|-|suffix|] else s
  }

  lemma SuffixComesOff(s: string, suffix: string)
    ensures TrimSuffix(s + suffix, suffix) == s
  {
    assert (s + suffix)[|s|..] == suffix && (s + suffix)[..|s|] == s;
  }

  /** The items with a space between each two. */
  function Join(items: seq<string>): string {
    if items == [] then ""
    else if |items| == 1 then items[0]
    else items[0] + (" " + Join(items[1..]))
  }

  lemma {:induction false} JoinOneMore(items: seq<string>, last: string)
    requires items != []
    ensures Join(items + [last]) == Join(items) + (" " + last)
  {
    if |items| == 1 {
      assert (items + [last])[1..] == [last];
    } else {
      assert (items + [last])[1..] == items[1..] + [last];
      JoinOneMore(items[1..], last);
      assert items[0] + (" " + (Join(items[1..]) + (" " + last))) == items[0] + (" " + Join(items[1..])) + (" " + last);
    }
  }

  function FieldLength(v: string): (n: nat)
    ensures n <= |v| && (v != "" && !IsSpace(v[0]) ==> n > 0)
  {
    if v == "" || IsSpace(v[0]) then 0 else 1 + FieldLength(v[1..])
  }

  /** The words of a value, between spaces. */
  function Fields(v: string): seq<string> {
    if v == "" then []
    else if IsSpace(v[0]) then Fields(v[1..])
    else var n := FieldLength(v); [v[..n]] + Fields(v[n..])
  }

  lemma {:induction false} NoSpaces(v: string)
    requires forall k :: 0 <= k < |v| ==> !IsSpace(v[k])
    ensures FieldLength(v) == |v|
  {
    if v != "" {
      NoSpaces(v[1..]);
    }
  }

  /** A word by itself is the only word of its value. */
  lemma OneField(v: string)
    requires IsWord(v)
    ensures Fields(v) == [v]
  {
    NoSpaces(v);
    assert v[..|v|] == v && v[|v|..] == "";
  }

  predicate IsWord(v: string) { v != "" && forall k :: 0 <= k < |v| ==> !IsSpace(v[k]) }

  lemma {:induction false} FieldEnds(a: string, rest: string)
    requires (forall k :: 0 <= k < |a| ==> !IsSpace(a[k])) && rest != "" && IsSpace(rest[0])
    ensures FieldLength(a + rest) == |a|
  {
    if a == "" {
      assert a + rest == rest;
    } else {
      assert (a + rest)[1..] == a[1..] + rest;
      FieldEnds(a[1..], rest);
    }
  }

  /** Words joined by spaces are the words of the value. */
  lemma {:induction false} FieldsOfJoin(words: seq<string>)
    requires forall w :: w in words ==> IsWord(w)
    ensures Fields(Join(words)) == words
  {
    if |words| == 1 {
      OneField(words[0]);
    } else if words != [] {
      var a, rest := words[0], Join(words[1..]);
      assert a in words && IsWord(a);
      FieldEnds(a, " " + rest);
      var v := a + (" " + rest);
      assert v[..|a|] == a && v[|a|..] == " " + rest && (" " + rest)[1..] == rest;
      FieldsOfJoin(words[1..]);
    }
  }

  /** A name a section may have. */
  predicate IsName(w: string) {
    1 <= |w| <= 32
    && forall k :: 0 <= k < |w| ==> 'a' <= w[k] <= 'z' || 'A' <= w[k] <= 'Z' || IsDigit(w[k]) || w[k] == '_'
  }

  // ---- Decimal numbers ----

  predicate IsDigit(c: char) { '0' <= c <= '9' }

  function DigitValue(c: char): (v: nat)
    requires IsDigit(c)
    ensures v < 10
  {
    (c - '0') as nat
  }

  function Digit(v: nat): (c: char)
    requires v < 10
    ensures IsDigit(c) && DigitValue(c) == v
  {
    '0' + v as char
  }

  predicate AllDigits(s: string) {
    forall i :: 0 <= i < |s| ==> IsDigit(s[i])
  }

  function DecValue(s: string): nat
    requires AllDigits(s)
  {
    if s == "" then 0 else 10 * DecValue(s[..|s|-1]) + DigitValue(s[|s|-1])
  }

  /** A number in decimal, without leading zeros. */
  function Decimal(n: nat): (s: string)
    ensures s != "" && AllDigits(s) && DecValue(s) == n
  {
    if n < 10 then
      var s := [Digit(n)];
      assert s[..0] == "";
      s
    else
      var s := Decimal(n / 10) + [Digit(n % 10)];
      assert s[..|s|-1] == Decimal(n / 10);
      s
  }

  function CountDigits(s: string): (n: nat)
    ensures n <= |s| && AllDigits(s[..n]) && (n < |s| ==> !IsDigit(s[n]))
  {
    if s == "" || !IsDigit(s[0]) then 0
    else
      var n := 1 + CountDigits(s[1..]);
      assert forall i :: 0 < i < n ==> s[..n][i] == s[1..][..n-1][i-1];
      n
  }

  predicate IsBlank(c: char) { c == ' ' || c == '\t' || c == '\r' }

  function SkipBlanks(s: string): string {
    if s != "" && IsBlank(s[0]) then SkipBlanks(s[1..]) else s
  }

  /** One `%d` of a Sscanf: blanks, a sign, digits; the number and what follows. */
  function ScanInt(s: string): Option<(int, string)> {
    var t := SkipBlanks(s);
    var signed := t != "" && (t[0] == '-' || t[0] == '+');
    var u := if signed then t[1..] else t;
    var n := CountDigits(u);
    if n == 0 then None
    else
      var value: int := DecValue(u[..n]);
      Some((if signed && t[0] == '-' then -value else value, u[n..]))
  }

  function CountChar(s: string, c: char): nat {
    if s == "" then 0 else CountChar(s[1..], c) + if s[0] == c then 1 else 0
  }
}
