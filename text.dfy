/** The text handling of the converter's input fields: Rust's `u8` parser
    (`str::parse::<u8>`), `string_is_int`, the decimal form `u8::to_string`
    and `str::split_ascii_whitespace`, which cuts pasted clipboard text into
    tokens. */
module AdsrText {

  newtype u8 = x: int | 0 <= x < 256

  datatype Option<T> = None | Some(value: T)

  predicate IsDigit(c: char)
  {
    '0' <= c <= '9'
  }

  function DigitValue(c: char): (d: nat)
    requires IsDigit(c)
    ensures d < 10
  {
    c as int - '0' as int
  }

  function DigitChar(d: nat): (c: char)
    requires d < 10
    ensures IsDigit(c) && DigitValue(c) == d
  {
    ('0' as int + d) as char
  }

  predicate AllDigits(s: string)
  {
    forall i :: 0 <= i < |s| ==> IsDigit(s[i])
  }

  /** The value of the digits `ds` read after an already accumulated `acc`,
      most significant digit first. */
  function Horner(acc: nat, ds: string): nat
    requires AllDigits(ds)
    decreases |ds|
  {
    if ds == [] then acc else Horner(acc * 10 + DigitValue(ds[0]), ds[1..])
  }

  /** The decimal value of a digit string. */
  function DecimalValue(ds: string): nat
    requires AllDigits(ds)
  {
    Horner(0, ds)
  }

  lemma {:induction false} HornerGrows(acc: nat, ds: string)
    requires AllDigits(ds)
    ensures acc <= Horner(acc, ds)
    decreases |ds|
  {
    if ds != [] {
      HornerGrows(acc * 10 + DigitValue(ds[0]), ds[1..]);
    }
  }

  /** Appending a digit multiplies the value so far by ten and adds it. */
  lemma {:induction false} HornerSnoc(acc: nat, ds: string, c: char)
    requires AllDigits(ds) && IsDigit(c)
    ensures AllDigits(ds + [c])
    ensures Horner(acc, ds + [c]) == Horner(acc, ds) * 10 + DigitValue(c)
    decreases |ds|
  {
    if ds != [] {
      assert (ds + [c])[1..] == ds[1..] + [c];
      HornerSnoc(acc * 10 + DigitValue(ds[0]), ds[1..], c);
    }
  }

  /** The digit loop of `u8::from_str`: each digit multiplies the value so
      far by ten and adds itself, with a checked operation that fails as
      soon as the value leaves `u8`; any non-digit fails too. */
  function CheckedDigits(ds: string, acc: nat): Option<u8>
    requires acc < 256
    decreases |ds|
  {
    if ds == [] then Some(acc as u8)
    else if !IsDigit(ds[0]) then None
    else
      var next := acc * 10 + DigitValue(ds[0]);
      if next >= 256 then None else CheckedDigits(ds[1..], next)
  }

  /** Checking after every digit is the same as checking the whole value
      once: the checked loop succeeds exactly on digit strings whose value
      fits in `u8`, and then with that value. */
  lemma {:induction false} CheckedDigitsValue(ds: string, acc: nat)
    requires acc < 256
    ensures CheckedDigits(ds, acc).Some? <==> AllDigits(ds) && Horner(acc, ds) < 256
    ensures CheckedDigits(ds, acc).Some? ==> CheckedDigits(ds, acc).value as int == Horner(acc, ds)
    decreases |ds|
  {
    if ds != [] {
      if !IsDigit(ds[0]) {
        assert !AllDigits(ds);
      } else {
        var next := acc * 10 + DigitValue(ds[0]);
        assert AllDigits(ds) <==> AllDigits(ds[1..]) by {
          if AllDigits(ds[1..]) {
            forall i | 0 <= i < |ds| ensures IsDigit(ds[i]) {
              if i > 0 { assert ds[i] == ds[1..][i - 1]; }
            }
          }
        }
        if next >= 256 {
          if AllDigits(ds) {
            HornerGrows(next, ds[1..]);
          }
        } else {
          CheckedDigitsValue(ds[1..], next);
        }
      }
    }
  }

  /** `str::parse::<u8>`: an optional `+` that must be followed by
      something, then the checked digit loop. */
  function ParseU8(s: string): Option<u8>
  {
    if s == [] || s == "+" then None
    else CheckedDigits(if s[0] == '+' then s[1..] else s, 0)
  }

  /** The text `str::parse::<u8>` accepts: an optional `+`, then at least
      one digit, and a value below 256; nothing else (no `-`, no empty
      text, no bare `+`). The value is the decimal value of the digits. */
  lemma ParseU8Accepts(s: string)
    ensures ParseU8(s).Some? <==> (s != [] && s != "+" &&
      var ds := if s[0] == '+' then s[1..] else s;
      AllDigits(ds) && DecimalValue(ds) < 256)
    ensures ParseU8(s).Some? ==> ParseU8(s).value as int == DecimalValue(if s[0] == '+' then s[1..] else s)
  {
    if s != [] && s != "+" {
      CheckedDigitsValue(if s[0] == '+' then s[1..] else s, 0);
    }
  }

  /** `string_is_int`: the text is an integer exactly when it parses as a
      `u8`. Whether it parses as `f32` instead does not matter, both of
      the other branches answer `false`. */
  predicate StringIsInt(s: string)
  {
    ParseU8(s).Some?
  }

  /** The decimal digits of `n` without leading zeros (`to_string`). */
  function Decimal(n: nat): (s: string)
    ensures |s| >= 1 && AllDigits(s)
    ensures s[0] == '0' ==> n == 0
    decreases n
  {
    if n < 10 then [DigitChar(n)] else Decimal(n / 10) + [DigitChar(n % 10)]
  }

  /** The digits of `Decimal(n)` read back give `n`. */
  lemma {:induction false} DecimalValueOfDecimal(n: nat)
    ensures DecimalValue(Decimal(n)) == n
    decreases n
  {
    if n >= 10 {
      DecimalValueOfDecimal(n / 10);
      HornerSnoc(0, Decimal(n / 10), DigitChar(n % 10));
      assert Decimal(n) == Decimal(n / 10) + [DigitChar(n % 10)];
      assert DecimalValue(Decimal(n)) == (n / 10) * 10 + n % 10;
      assert (n / 10) * 10 + n % 10 == n;
    } else {
      var c := DigitChar(n);
      assert Decimal(n) == [c];
      assert [c][1..] == [];
      assert Horner(0, [c]) == Horner(DigitValue(c), []);
    }
  }

  function U8ToString(v: u8): string
  {
    Decimal(v as nat)
  }

  /** `u8::to_string` followed by `parse::<u8>` gives back the number, so the
      text of a parsed number is again an integer. */
  lemma U8RoundTrip(v: u8)
    ensures ParseU8(U8ToString(v)) == Some(v)
    ensures StringIsInt(U8ToString(v))
  {
    DecimalValueOfDecimal(v as nat);
    ParseU8Accepts(U8ToString(v));
  }

  /** Parsing and printing normalises a `u8` text: the `+` sign and leading
      zeros go, the value stays. */
  lemma U8TextNormalised(s: string)
    requires StringIsInt(s)
    ensures ParseU8(U8ToString(ParseU8(s).value)) == ParseU8(s)
    ensures AllDigits(U8ToString(ParseU8(s).value))
    ensures U8ToString(ParseU8(s).value)[0] == '0' ==> ParseU8(s).value == 0
  {
    U8RoundTrip(ParseU8(s).value);
  }

  // ---------------------------------------------------------------------------
  // split_ascii_whitespace

  /** `u8::is_ascii_whitespace`: space, tab, line feed, form feed and carriage
      return; the vertical tab is not included. */
  predicate IsAsciiWhitespace(c: char)
  {
    c == ' ' || c == '\t' || c == '\n' || c == 12 as char || c == '\r'
  }

  predicate NoWhitespace(s: string)
  {
    forall i :: 0 <= i < |s| ==> !IsAsciiWhitespace(s[i])
  }

  /** Length of the run of non-whitespace characters at the start of `s`. */
  function WordLength(s: string): (n: nat)
    ensures n <= |s| && NoWhitespace(s[..n])
    ensures n < |s| ==> IsAsciiWhitespace(s[n])
  {
    if s == [] || IsAsciiWhitespace(s[0]) then 0
    else
      var n := 1 + WordLength(s[1..]);
      assert s[..n] == [s[0]] + s[1..][..n - 1];
      n
  }

  /** The tokens of `s` in order: maximal runs of non-whitespace. */
  function Tokens(s: string): (ts: seq<string>)
    ensures forall k :: 0 <= k < |ts| ==> ts[k] != [] && NoWhitespace(ts[k])
    decreases |s|
  {
    if s == [] then []
    else if IsAsciiWhitespace(s[0]) then Tokens(s[1..])
    else
      var n := WordLength(s);
      [s[..n]] + Tokens(s[n..])
  }

  function Concat(ts: seq<string>): string
  {
    if ts == [] then [] else ts[0] + Concat(ts[1..])
  }

  function WithoutWhitespace(s: string): (r: string)
    ensures NoWhitespace(r)
  {
    if s == [] then []
    else if IsAsciiWhitespace(s[0]) then WithoutWhitespace(s[1..])
    else [s[0]] + WithoutWhitespace(s[1..])
  }

  lemma {:induction false} WithoutWhitespaceOfWord(s: string, n: nat)
    requires n <= |s| && NoWhitespace(s[..n])
    ensures WithoutWhitespace(s) == s[..n] + WithoutWhitespace(s[n..])
    decreases n
  {
    if n > 0 {
      assert !IsAsciiWhitespace(s[..n][0]);
      assert s[1..][..n - 1] == s[..n][1..];
      WithoutWhitespaceOfWord(s[1..], n - 1);
      assert s[1..][n - 1..] == s[n..];
      assert s[..n] == [s[0]] + s[1..][..n - 1];
    }
  }

  /** Splitting loses exactly the whitespace: the tokens put back together
      are the text with its whitespace removed. */
  lemma {:induction false} TokensCoverText(s: string)
    ensures Concat(Tokens(s)) == WithoutWhitespace(s)
    decreases |s|
  {
    if s != [] {
      if IsAsciiWhitespace(s[0]) {
        TokensCoverText(s[1..]);
      } else {
        var n := WordLength(s);
        TokensCoverText(s[n..]);
        WithoutWhitespaceOfWord(s, n);
        assert ([s[..n]] + Tokens(s[n..]))[1..] == Tokens(s[n..]);
      }
    }
  }
  /** A run of non-whitespace followed by whitespace (or by nothing) is
      measured up to its end. */
  lemma {:induction false} WordLengthAppend(a: string, r: string)
    requires WordLength(a) < |a| || r == [] || IsAsciiWhitespace(r[0])
    ensures WordLength(a + r) == WordLength(a)
    decreases |a|
  {
    if a != [] && !IsAsciiWhitespace(a[0]) {
      assert (a + r)[1..] == a[1..] + r;
      WordLengthAppend(a[1..], r);
    }
  }

  /** A non-empty text without whitespace is a single token. */
  lemma TokensOfWord(w: string)
    requires w != [] && NoWhitespace(w)
    ensures Tokens(w) == [w]
  {
    WordLengthAppend(w, []);
    assert w + [] == w;
    assert WordLength(w) == |w|;
    assert w[..|w|] == w;
    assert w[|w|..] == [];
  }

  predicate AllWhitespace(s: string)
  {
    forall i :: 0 <= i < |s| ==> IsAsciiWhitespace(s[i])
  }

  /** A text of whitespace only has no tokens. */
  lemma {:induction false} TokensOfBlank(s: string)
    requires AllWhitespace(s)
    ensures Tokens(s) == []
    decreases |s|
  {
    if s != [] {
      assert IsAsciiWhitespace(s[0]);
      assert AllWhitespace(s[1..]) by {
        forall i | 0 <= i < |s[1..]| ensures IsAsciiWhitespace(s[1..][i]) {
          assert s[1..][i] == s[i + 1];
        }
      }
      TokensOfBlank(s[1..]);
    }
  }

  /** Whitespace always separates tokens: the tokens of a text cut at a
      whitespace character are the tokens of the part before it followed by
      those of the part after it. So no token spans whitespace, and with
      `TokensOfWord` no token is cut anywhere else. */
  lemma {:induction false} TokensSplitAtWhitespace(a: string, c: char, b: string)
    requires IsAsciiWhitespace(c)
    ensures Tokens(a + [c] + b) == Tokens(a) + Tokens(b)
    decreases |a|
  {
    var s := a + [c] + b;
    if a == [] {
      assert s == [c] + b;
      assert s[1..] == b;
    } else if IsAsciiWhitespace(a[0]) {
      assert s[1..] == a[1..] + [c] + b;
      TokensSplitAtWhitespace(a[1..], c, b);
    } else {
      var n := WordLength(a);
      WordLengthAppend(a, [c] + b);
      assert s == a + ([c] + b);
      assert s[..n] == a[..n];
      assert s[n..] == a[n..] + [c] + b;
      TokensSplitAtWhitespace(a[n..], c, b);
    }
  }
}
