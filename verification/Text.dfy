/** The text forms the operator keeps its state in: `strconv.FormatInt` and `strconv.ParseInt(_, 10, 32)`
    for saved replica counts, and `strings.TrimSpace` for the fields of the cost budget. */
module Text {
  import opened Wrappers

  /** Go's int32, the type of `spec.replicas`. */
  type Int32 = x: int | -0x8000_0000 <= x <= 0x7FFF_FFFF

  predicate IsDigit(c: char) {
    '0' <= c <= '9'
  }

  predicate AllDigits(s: string) {
    forall i :: 0 <= i < |s| ==> IsDigit(s[i])
  }

  /** The decimal digits of `n`, most significant first, without leading zeros. */
  function Digits(n: nat): (s: string)
    ensures s != "" && AllDigits(s)
  {
    if n < 10 then ['0' + n as char] else Digits(n / 10) + ['0' + (n % 10) as char]
  }

  /** The number a run of decimal digits denotes; leading zeros are allowed. */
  function Magnitude(s: string): nat
    requires AllDigits(s)
  {
    if s == "" then 0
    else 10 * Magnitude(s[..|s| - 1]) + (s[|s| - 1] - '0') as nat
  }

  /** `strconv.FormatInt(n, 10)`. */
  function FormatInt(n: int): string {
    if n < 0 then "-" + Digits(-n) else Digits(n)
  }

  /** `strconv.ParseInt(s, 10, 32)`: an optional sign, at least one digit, nothing else, and no value outside int32. */
  function ParseInt32(s: string): Option<Int32> {
    var negative := s != "" && s[0] == '-';
    var body := if s != "" && (s[0] == '-' || s[0] == '+') then s[1..] else s;
    if body == "" || !AllDigits(body) then None
    else
      var m: int := Magnitude(body);
      var n := if negative then -m else m;
      if -0x8000_0000 <= n <= 0x7FFF_FFFF then Some(n) else None
  }

  lemma {:induction false} MagnitudeOfDigits(n: nat)
    ensures Magnitude(Digits(n)) == n
  {
    if n >= 10 {
      var s := Digits(n);
      MagnitudeOfDigits(n / 10);
      assert s[..|s| - 1] == Digits(n / 10);
    }
  }

  /** Every int32 survives being printed into an annotation and read back. */
  lemma ParseOfFormat(n: Int32)
    ensures ParseInt32(FormatInt(n)) == Some(n)
  {
    if n < 0 {
      var m: int := n;
      MagnitudeOfDigits(-m);
      assert FormatInt(m)[1..] == Digits(-m);
    } else {
      MagnitudeOfDigits(n);
      assert IsDigit(Digits(n)[0]);
    }
  }

  function Pow10(n: nat): nat {
    if n == 0 then 1 else 10 * Pow10(n - 1)
  }

  lemma TenTimes(x: nat, y: nat)
    ensures x * (10 * y) == 10 * (x * y)
  {
  }

  lemma OneMoreDigit(s: string, c: char)
    requires AllDigits(s + [c])
    ensures AllDigits(s) && AllDigits([c])
    ensures Magnitude(s + [c]) == 10 * Magnitude(s) + (c as int - 48)
  {
    assert (s + [c])[|s|] == c && (s + [c])[..|s|] == s;
    assert forall i :: 0 <= i < |s| ==> (s + [c])[i] == s[i];
  }

  /** Digits count by their place: what stands in front of `b` counts ten for each digit of `b`. */
  lemma {:induction false} MagnitudeByPlace(a: string, b: string)
    requires AllDigits(a + b)
    ensures AllDigits(a) && AllDigits(b)
    ensures Magnitude(a + b) == Magnitude(a) * Pow10(|b|) + Magnitude(b)
    ensures |b| == 1 ==> Magnitude(b) == b[0] as int - 48
  {
    if b == "" {
      assert a + b == a;
    } else {
      var init, last := b[..|b| - 1], b[|b| - 1];
      assert a + b == (a + init) + [last] && b == init + [last];
      OneMoreDigit(a + init, last);
      MagnitudeByPlace(a, init);
      assert AllDigits(b);
      OneMoreDigit(init, last);
      TenTimes(Magnitude(a), Pow10(|init|));
      assert |b| == 1 ==> init == "";
    }
  }

  /** No leading zeros are printed, and no sign but a minus. */
  lemma {:induction false} FormatIsCanonical(n: nat)
    ensures FormatInt(n) != "" && forall i :: 0 <= i < |FormatInt(n)| ==> '0' <= FormatInt(n)[i] <= '9'
    ensures FormatInt(n)[0] == '0' ==> FormatInt(n) == "0"
    ensures n > 0 ==> FormatInt(0 - n) == "-" + FormatInt(n)
  {
    if n >= 10 {
      FormatIsCanonical(n / 10);
    }
  }

  /** What the parse accepts and returns, for a run of digits and for that run behind a sign. */
  lemma ParseOfDigits(body: string)
    requires body != "" && AllDigits(body)
    ensures var n: int := Magnitude(body);
            && ParseInt32(body) == (if n <= 2_147_483_647 then Some(n) else None)
            && ParseInt32("+" + body) == ParseInt32(body)
            && ParseInt32("-" + body) == (if n <= 2_147_483_648 then Some(-n) else None)
  {
    assert ("+" + body)[1..] == body && ("-" + body)[1..] == body;
    assert IsDigit(body[0]);
  }

  /** It accepts nothing else. */
  lemma ParseOfOthers(s: string)
    requires ParseInt32(s).Some?
    ensures exists body :: body != "" && (forall i :: 0 <= i < |body| ==> '0' <= body[i] <= '9')
                           && (s == body || s == "+" + body || s == "-" + body)
  {
    var body := if s[0] == '-' || s[0] == '+' then s[1..] else s;
    assert s == body || s == [s[0]] + body;
  }

  /** `unicode.IsSpace`. */
  predicate IsSpace(c: char) {
    '\t' <= c <= '\r' || c == ' ' || c == '\U{0085}' || c == '\U{00A0}' || c == '\U{1680}'
    || '\U{2000}' <= c <= '\U{200A}' || c == '\U{2028}' || c == '\U{2029}'
    || c == '\U{202F}' || c == '\U{205F}' || c == '\U{3000}'
  }

  /** `strings.TrimSpace`. */
  function TrimSpace(s: string): (t: string)
    ensures t != "" ==> !IsSpace(t[0]) && !IsSpace(t[|t| - 1])
  {
    if s == "" then s
    else if IsSpace(s[0]) then TrimSpace(s[1..])
    else if IsSpace(s[|s| - 1]) then TrimSpace(s[..|s| - 1])
    else s
  }

  /** White space around a text is cut off, all of it and nothing else. */
  lemma {:induction false} TrimOf(before: string, text: string, behind: string)
    requires forall i :: 0 <= i < |before| ==> IsSpace(before[i])
    requires forall i :: 0 <= i < |behind| ==> IsSpace(behind[i])
    requires text != "" ==> !IsSpace(text[0]) && !IsSpace(text[|text| - 1])
    ensures TrimSpace(before + text + behind) == text
    decreases |before| + |behind|
  {
    var s := before + text + behind;
    if before != "" {
      assert s[1..] == before[1..] + text + behind;
      TrimOf(before[1..], text, behind);
    } else if behind != "" && text == "" {
      assert s[1..] == before + text + behind[1..];
      TrimOf(before, text, behind[1..]);
    } else if behind != "" {
      assert s[..|s| - 1] == before + text + behind[..|behind| - 1];
      TrimOf(before, text, behind[..|behind| - 1]);
    } else {
      assert s == text;
    }
  }

  /** The code points that count as white space. */
  lemma SpaceByCode(c: char)
    ensures var n := c as int;
            IsSpace(c) <==>
              8192 <= n <= 8202 || n in {9, 10, 11, 12, 13, 32, 133, 160, 5760, 8232, 8233, 8239, 8287, 12288}
  {
  }

  /** Text that neither starts nor ends in white space, such as printed numbers, is left alone. */
  lemma TrimOfDigits(n: nat)
    ensures TrimSpace(Digits(n)) == Digits(n)
  {
    var s := Digits(n);
    assert IsDigit(s[0]) && IsDigit(s[|s| - 1]);
  }
}
