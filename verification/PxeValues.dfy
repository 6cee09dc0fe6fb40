/** Values in menu files: keywords in any case, numbers, and a ramdisk named among the arguments. */
module PxeValues {
  import opened Results
  import opened PxeLexer
  import opened PxeParser
  import opened PxeTokens

  // ---------------------------------------------------------------- keywords in any case

  /** The same letters, each in lower or upper case. */
  predicate SameLetters(word: string, kw: string) {
    && |word| == |kw|
    && forall i :: 0 <= i < |kw| ==>
         word[i] == kw[i] || ('a' <= kw[i] <= 'z' && word[i] as int == kw[i] as int - 32)
  }

  lemma {:induction false} LoweredLetters(word: string, kw: string)
    requires SameLetters(word, kw) && forall i :: 0 <= i < |kw| ==> !IsUpper(kw[i])
    ensures Lowered(word) == kw
  {
    if kw != "" { LoweredLetters(word[1..], kw[1..]); }
  }

  /** A keyword is recognised in any mixture of cases. */
  lemma {:induction false} KeywordAnyCase(text: string, w: Word, rest: string)
    requires SameLetters(text, Spelling(w)) && (rest != "" ==> IsSpace(rest[0]))
    ensures GetToken(text + rest, Keyword) == (Meaning(w), At(rest))
  {
    hide TokenStart, Lookup, Split, Lowered, Spelling, Meaning;
    WordPlain(w);
    var word := Spelling(w);
    assert forall i :: 0 <= i < |text| ==> !IsSpace(word[i]) && !IsSpace(text[i]);
    NoSkip(text + rest);
    SplitIs(text, rest, Keyword);
    LoweredLetters(text, word);
    LookupExact(word);
  }

  // ---------------------------------------------------------------- numbers

  function DigitChar(d: nat): char
    requires d < 16
  {
    if d < 10 then ('0' as int + d) as char else ('a' as int + d - 10) as char
  }

  /** The usual notations. */
  function Decimal(n: nat): string {
    if n < 10 then [DigitChar(n)] else Decimal(n / 10) + [DigitChar(n % 10)]
  }

  function Hexadecimal(n: nat): string {
    if n < 16 then [DigitChar(n)] else Hexadecimal(n / 16) + [DigitChar(n % 16)]
  }

  predicate IsDigitOf(c: char, base: nat) {
    (IsDigit(c) || IsHexLetter(c)) && Digit(c) < base
  }

  predicate DigitsOnly(s: string, base: nat) {
    forall i :: 0 <= i < |s| ==> IsDigitOf(s[i], base)
  }

  lemma {:induction false} DigitOfChar(d: nat)
    requires d < 16
    ensures var c := DigitChar(d); (IsDigit(c) || IsHexLetter(c)) && Digit(c) == d
  {
  }

  /** Reading one more digit multiplies by the base and adds it. */
  lemma {:induction false} DigitsSnoc(s: string, c: char, base: nat, sofar: nat)
    requires IsDigitOf(c, base) && DigitsOnly(s, base)
    ensures Digits(s + [c], base, sofar) == Digits(s, base, sofar) * base + Digit(c)
    decreases |s|
  {
    hide Digit, IsDigit, IsHexLetter;
    if s == "" {
      assert s + [c] == [c];
      assert [c][1..] == "";
      assert Digits("", base, sofar * base + Digit(c)) == sofar * base + Digit(c);
    } else {
      assert IsDigitOf(s[0], base);
      assert (s + [c])[1..] == s[1..] + [c];
      DigitsSnoc(s[1..], c, base, sofar * base + Digit(s[0]));
    }
  }

  /** Reading stops at the first character that is no digit of the base. */
  lemma {:induction false} DigitsStop(s: string, rest: string, base: nat, sofar: nat)
    requires DigitsOnly(s, base) && (rest == "" || !IsDigitOf(rest[0], base))
    ensures Digits(s + rest, base, sofar) == Digits(s, base, sofar)
    decreases |s|
  {
    hide Digit, IsDigit, IsHexLetter;
    if s == "" {
      assert s + rest == rest;
    } else {
      assert IsDigitOf(s[0], base);
      assert (s + rest)[1..] == s[1..] + rest;
      DigitsStop(s[1..], rest, base, sofar * base + Digit(s[0]));
    }
  }

  lemma {:induction false} NoDigits(base: nat)
    ensures Digits("", base, 0) == 0
  {
  }

  lemma {:induction false} DigitsOfDecimal(n: nat)
    ensures Decimal(n) != "" && DigitsOnly(Decimal(n), 10) && Digits(Decimal(n), 10, 0) == n
  {
    hide DigitChar, Digit, Digits;
    NoDigits(10);
    if n < 10 {
      DigitOfChar(n);
      DigitsSnoc("", DigitChar(n), 10, 0);
      assert "" + [DigitChar(n)] == Decimal(n);
    } else {
      DigitsOfDecimal(n / 10);
      DigitOfChar(n % 10);
      DigitsSnoc(Decimal(n / 10), DigitChar(n % 10), 10, 0);
    }
  }

  lemma {:induction false} DigitsOfHexadecimal(n: nat)
    ensures DigitsOnly(Hexadecimal(n), 16) && Digits(Hexadecimal(n), 16, 0) == n
  {
    hide DigitChar, Digit, Digits;
    NoDigits(16);
    if n < 16 {
      DigitOfChar(n);
      DigitsSnoc("", DigitChar(n), 16, 0);
      assert "" + [DigitChar(n)] == Hexadecimal(n);
    } else {
      DigitsOfHexadecimal(n / 16);
      DigitOfChar(n % 16);
      DigitsSnoc(Hexadecimal(n / 16), DigitChar(n % 16), 16, 0);
    }
  }

  /** A number written in decimal, or in hexadecimal with its prefix, is read back, with or without
    * a sign. */
  lemma {:induction false} NumberRoundTrip(n: nat)
    ensures Number(Decimal(n)) == n && Number("-" + Decimal(n)) == 0 - n
    ensures Number("0x" + Hexadecimal(n)) == n && Number("-0x" + Hexadecimal(n)) == 0 - n
  {
    hide Digits, Decimal, Hexadecimal;
    DigitsOfDecimal(n);
    assert |Decimal(n)| >= 2 ==> Lower(Decimal(n)[1]) != 'x';
    assert ("-" + Decimal(n))[1..] == Decimal(n);
    DigitsOfHexadecimal(n);
    assert ("0x" + Hexadecimal(n))[2..] == Hexadecimal(n);
    assert ("-0x" + Hexadecimal(n))[1..] == "0x" + Hexadecimal(n);
  }

  /** As an integer of 32 bits it is read back if and only if it fits. */
  lemma {:induction false} IntegerRoundTrip(n: nat)
    ensures Integer(Decimal(n)) == n <==> n < 0x8000_0000
    ensures Integer("-" + Decimal(n)) == 0 - n <==> n <= 0x8000_0000
  {
    hide Number, Decimal;
    NumberRoundTrip(n);
  }

  // ---------------------------------------------------------------- a ramdisk among the arguments

  predicate RamdiskAt(v: string, i: nat) {
    i + 7 <= |v| && v[i..i + 7] == "initrd="
  }

  /** What follows the first mention of a ramdisk. */
  lemma {:induction false} AfterInitrdIs(v: string)
    ensures match AfterInitrd(v)
            case None => forall i: nat :: !RamdiskAt(v, i)
            case Some(tail) =>
              && |tail| + 7 <= |v|
              && RamdiskAt(v, |v| - |tail| - 7) && tail == v[|v| - |tail|..]
              && forall i: nat :: i < |v| - |tail| - 7 ==> !RamdiskAt(v, i)
  {
    if |v| >= 7 && v[..7] != "initrd=" {
      AfterInitrdIs(v[1..]);
      forall i: nat | i > 0 ensures RamdiskAt(v, i) <==> RamdiskAt(v[1..], i - 1) {
        if i + 7 <= |v| { assert v[i..i + 7] == v[1..][i - 1..i + 6]; }
      }
      var tail := AfterInitrd(v[1..]);
      if tail.Some? {
        var at := |v| - |tail.value| - 7;
        assert RamdiskAt(v[1..], at - 1);
        assert RamdiskAt(v, at);
      }
    }
  }

  lemma {:induction false} ToSpaceIs(s: string)
    ensures match ToSpace(s)
            case None => ' ' !in s
            case Some(w) => ' ' !in w && w + " " <= s && ' ' in s
  {
    if s != "" && s[0] != ' ' { ToSpaceIs(s[1..]); }
  }

  /** An argument line names the ramdisk of its label when none is set: the text between the first
    * "initrd=" and the next space.  The line is handled if and only if that space is there, or
    * there is nothing to look for. */
  lemma {:induction false} RamdiskFromArguments(e: Entry, v: string)
    ensures WithAppend(e, v).Err? <==>
              e.initrd.None? && AfterInitrd(v).Some? && ' ' !in AfterInitrd(v).value
    ensures WithAppend(e, v).Ok? ==>
              var e' := WithAppend(e, v).value;
              && e'.append == Some(v)
              && (e.initrd.Some? || AfterInitrd(v).None? ==> e'.initrd == e.initrd)
              && (e.initrd.None? && AfterInitrd(v).Some? ==>
                    e'.initrd.Some? && ' ' !in e'.initrd.value && e'.initrd.value + " " <= AfterInitrd(v).value)
  {
    if AfterInitrd(v).Some? { ToSpaceIs(AfterInitrd(v).value); }
  }

  /** A ramdisk named at the end of the line is such a case. */
  lemma {:induction false} RamdiskAtEnd(e: Entry)
    requires e.initrd.None?
    ensures WithAppend(e, "initrd=a") == Err(Undefined)
  {
    assert "initrd=a"[..7] == "initrd=" && "initrd=a"[7..] == "a";
    assert "a"[1..] == "";
  }
}
