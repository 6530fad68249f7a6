/** Which texts the webserver reads as a port, and as which: the language of int() over ASCII. */
module Numerals {
  import opened Collections
  import opened Endpoints

  // ---- Digits with underscores between them ----

  /** A digit, or an underscore between two digits. */
  predicate GoodAt(s: string, i: int)
    requires 0 <= i < |s|
  {
    IsDigit(s[i]) || (s[i] == '_' && 0 < i < |s| - 1 && IsDigit(s[i - 1]) && IsDigit(s[i + 1]))
  }

  predicate Numeral(s: string) {
    s != "" && forall i :: 0 <= i < |s| ==> GoodAt(s, i)
  }

  lemma NumeralEnds(s: string)
    requires Numeral(s)
    ensures IsDigit(s[0]) && IsDigit(s[|s| - 1])
  {
    assert GoodAt(s, 0) && GoodAt(s, |s| - 1);
  }

  lemma NumeralDigit(front: string, c: char)
    requires front != "" && IsDigit(c) && front[|front| - 1] != '_'
    ensures Numeral(front + [c]) <==> Numeral(front)
  {
    var s := front + [c];
    assert GoodAt(s, |front|);
    forall i | 0 <= i < |front| ensures GoodAt(s, i) <==> GoodAt(front, i) {
      assert s[i] == front[i];
      assert 0 < i ==> s[i - 1] == front[i - 1];
      assert i + 1 < |front| ==> s[i + 1] == front[i + 1];
    }
    if Numeral(s) {
      forall i | 0 <= i < |front| ensures GoodAt(front, i) {
        assert GoodAt(s, i);
      }
    }
  }

  lemma NumeralUnderscore(front: string, c: char)
    requires IsDigit(c)
    ensures Numeral(front + "_" + [c]) <==> Numeral(front)
  {
    var s := front + "_" + [c];
    var n := |front|;
    assert s[n] == '_' && s[n + 1] == c && GoodAt(s, n + 1);
    if Numeral(s) {
      assert GoodAt(s, n);
      forall i | 0 <= i < n ensures GoodAt(front, i) {
        assert GoodAt(s, i) && s[i] == front[i];
        assert 0 < i ==> s[i - 1] == front[i - 1];
        assert i + 1 < n ==> s[i + 1] == front[i + 1];
      }
    }
    if Numeral(front) {
      NumeralEnds(front);
      forall i | 0 <= i < |s| ensures GoodAt(s, i) {
        if i < n {
          assert GoodAt(front, i) && s[i] == front[i];
          assert 0 < i ==> s[i - 1] == front[i - 1];
          assert i + 1 < n ==> s[i + 1] == front[i + 1];
        } else if i == n {
          assert s[i - 1] == front[n - 1];
        }
      }
    }
  }

  /** The value with one more digit at its end. */
  function More(value: Option<nat>, c: char): Option<nat>
    requires IsDigit(c)
  {
    if value.None? then None else Some(10 * value.value + DigitValue(c))
  }

  /** How the parser goes on at the last digit, with and without an underscore before it. */
  lemma ParseLast(s: string)
    requires |s| > 1 && s[|s| - 2] != '_' && IsDigit(s[|s| - 1])
    ensures ParseDigits(s) == More(ParseDigits(s[..|s| - 1]), s[|s| - 1])
  {
  }

  lemma ParseSnoc(front: string, c: char)
    requires front != "" && front[|front| - 1] != '_' && IsDigit(c)
    ensures ParseDigits(front + [c]) == More(ParseDigits(front), c)
  {
    hide ParseDigits;
    var s := front + [c];
    assert s[..|s| - 1] == front && s[|s| - 1] == c;
    ParseLast(s);
  }

  lemma ParseUnderscore(front: string, c: char)
    requires IsDigit(c)
    ensures ParseDigits(front + "_" + [c]) == More(ParseDigits(front), c)
  {
    var s := front + "_" + [c];
    assert s[..|s| - 1] == front + "_" && s[|s| - 1] == c;
    assert (front + "_")[..|front|] == front;
  }

  /** The parser accepts exactly the numerals, and underscores do not count. */
  lemma {:induction false} ParsesNumerals(s: string)
    ensures ParseDigits(s).Some? <==> Numeral(s)
    ensures Numeral(s) ==> OnlyDigits(s) != "" && ParseDigits(s) == ParseDigits(OnlyDigits(s))
    decreases |s|
  {
    if s != "" && IsDigit(s[|s| - 1]) {
      hide ParseDigits, Numeral;
      var c, front := s[|s| - 1], s[..|s| - 1];
      assert s == front + [c];
      if front == "" {
        OneDigit(c);
      } else if front[|front| - 1] == '_' {
        var before := front[..|front| - 1];
        assert s == before + "_" + [c];
        NumeralUnderscore(before, c);
        ParseUnderscore(before, c);
        ParsesNumerals(before);
        OnlyDigitsSnoc(before + "_", c);
        OnlyDigitsSkips(before);
        SnocDigits(OnlyDigits(before), c);
      } else {
        NumeralDigit(front, c);
        ParseSnoc(front, c);
        ParsesNumerals(front);
        OnlyDigitsSnoc(front, c);
        SnocDigits(OnlyDigits(front), c);
      }
    } else {
      NoNumeral(s);
    }
  }

  lemma NoNumeral(s: string)
    requires s == "" || !IsDigit(s[|s| - 1])
    ensures !Numeral(s) && ParseDigits(s).None?
  {
    assert s != "" ==> !GoodAt(s, |s| - 1);
  }

  lemma OneDigit(c: char)
    requires IsDigit(c)
    ensures Numeral([c]) && ParseDigits([c]) == Some(DigitValue(c)) && OnlyDigits([c]) == [c]
    ensures PrintNat(DigitValue(c)) == [c]
  {
    assert [c][..0] == "";
    assert GoodAt([c], 0);
  }

  /** The digits of s, in order. */
  function OnlyDigits(s: string): (r: string)
    ensures forall i :: 0 <= i < |r| ==> IsDigit(r[i])
  {
    if s == "" then "" else OnlyDigits(s[..|s| - 1]) + (if IsDigit(s[|s| - 1]) then [s[|s| - 1]] else "")
  }

  lemma OnlyDigitsSnoc(front: string, c: char)
    requires IsDigit(c)
    ensures OnlyDigits(front + [c]) == OnlyDigits(front) + [c]
  {
    assert (front + [c])[..|front|] == front;
  }

  lemma OnlyDigitsSkips(front: string)
    ensures OnlyDigits(front + "_") == OnlyDigits(front)
  {
    assert (front + "_")[..|front|] == front;
  }

  lemma SnocDigits(digits: string, c: char)
    requires (forall i :: 0 <= i < |digits| ==> IsDigit(digits[i])) && IsDigit(c)
    ensures digits != "" ==> ParseDigits(digits + [c]) == More(ParseDigits(digits), c)
  {
    if digits != "" {
      ParseSnoc(digits, c);
    }
  }

  // ---- The value of plain digits ----

  predicate AllDigits(s: string) {
    s != "" && forall i :: 0 <= i < |s| ==> IsDigit(s[i])
  }

  lemma ZeroThenDigit(c: char)
    requires IsDigit(c)
    ensures ParseDigits("0" + [c]) == ParseDigits([c])
  {
    hide ParseDigits;
    OneDigit(c);
    OneDigit('0');
    ParseSnoc("0", c);
  }

  lemma ZeroThenDigits(front: string, c: char)
    requires AllDigits(front) && IsDigit(c) && ParseDigits("0" + front) == ParseDigits(front)
    ensures ParseDigits("0" + (front + [c])) == ParseDigits(front + [c])
  {
    hide ParseDigits;
    ParseSnoc(front, c);
    assert ("0" + front)[|front|] == front[|front| - 1];
    ParseSnoc("0" + front, c);
    assert "0" + (front + [c]) == ("0" + front) + [c];
  }

  /** A leading zero does not count. */
  lemma {:induction false} LeadingZeroDoesNotCount(s: string)
    requires AllDigits(s)
    ensures ParseDigits("0" + s) == ParseDigits(s)
    decreases |s|
  {
    hide ParseDigits;
    if |s| == 1 {
      ZeroThenDigit(s[0]);
      assert s == [s[0]];
    } else {
      var front, c := s[..|s| - 1], s[|s| - 1];
      LeadingZeroDoesNotCount(front);
      ZeroThenDigits(front, c);
      assert s == front + [c];
    }
  }

  /** Digits without a leading zero are what printing their value gives. */
  lemma {:induction false} DigitsPrintBack(s: string)
    requires AllDigits(s) && (s == "0" || s[0] != '0')
    ensures ParseDigits(s).Some? && PrintNat(ParseDigits(s).value) == s
    ensures s[0] != '0' ==> ParseDigits(s).value > 0
    decreases |s|
  {
    hide ParseDigits, PrintNat;
    var front, c := s[..|s| - 1], s[|s| - 1];
    assert s == front + [c];
    if front == "" {
      OneDigit(c);
    } else {
      assert front[0] == s[0];
      DigitsPrintBack(front);
      ParseSnoc(front, c);
      LastDigit(ParseDigits(front).value, c);
    }
  }

  lemma LastDigit(value: nat, c: char)
    requires value > 0 && IsDigit(c)
    ensures PrintNat(10 * value + DigitValue(c)) == PrintNat(value) + [c]
  {
    var n := 10 * value + DigitValue(c);
    assert n / 10 == value && n % 10 == DigitValue(c);
  }

  // ---- Signs and spaces ----

  predicate Spaces(s: string) {
    forall i :: 0 <= i < |s| ==> IsSpace(s[i])
  }

  /** A space, or one of tab, line feed, vertical tab, form feed and carriage return. */
  lemma SpaceCharacters(c: char)
    ensures IsSpace(c) <==> c as int in {9, 10, 11, 12, 13, 32}
  {
  }

  predicate Trim(t: string) {
    t != "" && !IsSpace(t[0]) && !IsSpace(t[|t| - 1])
  }

  lemma {:induction false} StripIs(s: string) returns (before: string, after: string)
    ensures s == before + Strip(s) + after && Spaces(before) && Spaces(after)
    decreases |s|
  {
    before, after := "", "";
    if s == "" {
    } else if IsSpace(s[0]) {
      var b, a := StripIs(s[1..]);
      before, after := [s[0]] + b, a;
      assert s == [s[0]] + s[1..];
    } else if IsSpace(s[|s| - 1]) {
      var b, a := StripIs(s[..|s| - 1]);
      before, after := b, a + [s[|s| - 1]];
      assert s == s[..|s| - 1] + [s[|s| - 1]];
    }
  }

  lemma {:induction false} StripSpaces(before: string, t: string, after: string)
    requires Spaces(before) && Spaces(after) && Trim(t)
    ensures Strip(before + t + after) == t
    decreases |before| + |after|
  {
    var s := before + t + after;
    if before != "" {
      assert s[1..] == before[1..] + t + after && s[0] == before[0];
      StripSpaces(before[1..], t, after);
    } else if after != "" {
      assert s[..|s| - 1] == before + t + after[..|after| - 1] && s[|s| - 1] == after[|after| - 1] && s[0] == t[0];
      StripSpaces(before, t, after[..|after| - 1]);
    } else {
      assert s == t;
    }
  }

  /** A numeral with at most one sign, and spaces around it. */
  predicate PortText(s: string, before: string, sign: string, digits: string, after: string) {
    && s == before + (sign + digits) + after && Spaces(before) && Spaces(after)
    && (sign == "" || sign == "+" || sign == "-") && Numeral(digits)
  }

  lemma SignedNumeral(sign: string, digits: string)
    requires (sign == "" || sign == "+" || sign == "-") && Numeral(digits)
    ensures Trim(sign + digits)
    ensures sign == "" ==> sign + digits == digits && IsDigit(digits[0])
    ensures sign != "" ==> (sign + digits)[0] == sign[0] && (sign + digits)[1..] == digits
  {
    NumeralEnds(digits);
    assert (sign + digits)[|sign + digits| - 1] == digits[|digits| - 1];
  }

  /** Such a text is accepted, as the value of its digits, negated after a minus sign. */
  lemma PortTextIsAccepted(s: string, before: string, sign: string, digits: string, after: string)
    requires PortText(s, before, sign, digits, after)
    ensures ParseDigits(digits).Some?
    ensures ParseInt(s) == Some((if sign == "-" then -1 else 1) * ParseDigits(digits).value)
  {
    hide ParseDigits, Strip, Numeral;
    ParsesNumerals(digits);
    SignedNumeral(sign, digits);
    StripSpaces(before, sign + digits, after);
  }

  /** And no other text is. */
  lemma OnlyPortTextsAreAccepted(s: string)
    ensures ParseInt(s).Some? ==>
      exists before, sign, digits, after :: PortText(s, before, sign, digits, after)
  {
    hide ParseDigits, Strip, Numeral;
    var t := Strip(s);
    var before, after := StripIs(s);
    if ParseInt(s).Some? {
      if t[0] == '-' || t[0] == '+' {
        ParsesNumerals(t[1..]);
        assert t == [t[0]] + t[1..];
        assert PortText(s, before, [t[0]], t[1..], after);
      } else {
        ParsesNumerals(t);
        assert "" + t == t;
        assert PortText(s, before, "", t, after);
      }
    }
  }
}
