/** The Kenyan phone normaliser.  Which characters the source's `\D` spares depends on Unicode,
    so that class is a parameter: any that contains the ten ASCII digits. */
module Phone {
  import opened Options
  import opened Money

  type CharClass = char -> bool

  ghost predicate CoversDigits(nd: CharClass) {
    forall c :: IsDigit(c) ==> nd(c)
  }

  function DigitsOf(nd: CharClass, raw: string): (r: string)
    ensures forall c :: c in r ==> nd(c)
  {
    if raw == "" then ""
    else if nd(raw[0]) then [raw[0]] + DigitsOf(nd, raw[1..])
    else DigitsOf(nd, raw[1..])
  }

  predicate StartsWith(s: string, prefix: string) {
    |prefix| <= |s| && s[..|prefix|] == prefix
  }

  /** The number in canonical form, or nothing where the source raises ValueError. */
  function Normalize(nd: CharClass, raw: string): Option<string> {
    var digits := DigitsOf(nd, raw);
    if StartsWith(digits, "254") && |digits| == 12 then Some(digits)
    else if StartsWith(digits, "0") && |digits| == 10 && digits[1] in "17" then Some("254" + digits[1..])
    else if StartsWith(digits, "7") && |digits| == 9 then Some("254" + digits)
    else if StartsWith(digits, "1") && |digits| == 9 then Some("254" + digits)
    else None
  }

  lemma {:induction false} DigitsOfDigits(nd: CharClass, s: string)
    requires forall c :: c in s ==> nd(c)
    ensures DigitsOf(nd, s) == s
  {
    if s != "" {
      assert s[0] in s;
      DigitsOfDigits(nd, s[1..]);
    }
  }

  lemma {:induction false} DigitsOfConcat(nd: CharClass, a: string, b: string)
    ensures DigitsOf(nd, a + b) == DigitsOf(nd, a) + DigitsOf(nd, b)
  {
    if a == "" {
      assert a + b == b;
    } else {
      assert (a + b)[1..] == a[1..] + b;
      DigitsOfConcat(nd, a[1..], b);
    }
  }

  lemma OnlyDigitsMatter(nd: CharClass, a: string, b: string)
    requires DigitsOf(nd, a) == DigitsOf(nd, b)
    ensures Normalize(nd, a) == Normalize(nd, b)
  {
  }

  /** Only the digits matter: spaces, dashes and a plus sign anywhere make no difference. */
  lemma PunctuationIsIgnored(nd: CharClass, a: string, junk: string, b: string)
    requires forall c :: c in junk ==> !nd(c)
    ensures Normalize(nd, a + junk + b) == Normalize(nd, a + b)
    ensures Normalize(nd, a + b) == Normalize(nd, DigitsOf(nd, a + b))
  {
    JunkHasNoDigits(nd, junk);
    DigitsOfConcat(nd, a + junk, b);
    DigitsOfConcat(nd, a, junk);
    DigitsOfConcat(nd, a, b);
    DigitsOfDigits(nd, DigitsOf(nd, a + b));
    hide DigitsOf;
    assert DigitsOf(nd, a) + "" == DigitsOf(nd, a);
    OnlyDigitsMatter(nd, a + junk + b, a + b);
    OnlyDigitsMatter(nd, a + b, DigitsOf(nd, a + b));
  }

  lemma {:induction false} JunkHasNoDigits(nd: CharClass, junk: string)
    requires forall c :: c in junk ==> !nd(c)
    ensures DigitsOf(nd, junk) == ""
  {
    if junk != "" {
      assert junk[0] in junk;
      JunkHasNoDigits(nd, junk[1..]);
    }
  }

  /** A normalised number is twelve digits starting 254, and normalising it again changes
      nothing. */
  lemma NormalForm(nd: CharClass, raw: string)
    requires CoversDigits(nd) && Normalize(nd, raw).Some?
    ensures var p := Normalize(nd, raw).value;
            && |p| == 12 && StartsWith(p, "254") && (forall c :: c in p ==> nd(c))
            && Normalize(nd, p) == Some(p)
  {
    var p, digits := Normalize(nd, raw).value, DigitsOf(nd, raw);
    forall c | c in p ensures nd(c) {
      assert IsDigit('2') && IsDigit('5') && IsDigit('4');
      assert c in "254" || c in digits;
    }
    DigitsOfDigits(nd, p);
  }

  /** Twelve digits starting 254 are already in normal form. */
  lemma TwelveDigitsPass(nd: CharClass, raw: string)
    requires |DigitsOf(nd, raw)| == 12 && DigitsOf(nd, raw)[..3] == "254"
    ensures Normalize(nd, raw) == Some(DigitsOf(nd, raw))
  {
  }

  /** A nine-digit subscriber number is reached from exactly its three spellings. */
  lemma SpellingsOf(nd: CharClass, n: string, raw: string)
    requires |n| == 9 && (n[0] == '7' || n[0] == '1')
    ensures Normalize(nd, raw) == Some("254" + n)
            <==> DigitsOf(nd, raw) == "254" + n || DigitsOf(nd, raw) == "0" + n || DigitsOf(nd, raw) == n
  {
    var digits := DigitsOf(nd, raw);
    var full := "254" + n;
    assert full[3..] == n;
    if Normalize(nd, raw) == Some(full) {
      if digits != full {
        if |digits| == 10 {
          assert digits == "0" + digits[1..];
          assert ("254" + digits[1..])[3..] == digits[1..];
        } else {
          assert ("254" + digits)[3..] == digits;
        }
      }
    }
    if digits == "0" + n {
      assert digits[1..] == n && digits[..1] == "0" && digits[0] == '0';
      assert digits[..3][0] == '0';
    }
    if digits == n {
      assert digits[..1] == [n[0]];
    }
    if digits == full {
      assert digits[..3] == "254";
    }
  }

  // ---- What the source's comment promises ----

  lemma PrefixAt(s: string, prefix: string, c: char)
    ensures StartsWith(s, prefix + [c]) <==> StartsWith(s, prefix) && |s| > |prefix| && s[|prefix|] == c
  {
    if |s| > |prefix| {
      assert s[..|prefix| + 1] == s[..|prefix|] + [s[|prefix|]];
      assert s[..|prefix| + 1] == prefix + [c] ==> s[..|prefix| + 1][..|prefix|] == (prefix + [c])[..|prefix|];
    }
  }

  /** The result form it promises. */
  predicate PromisedForm(p: string) {
    |p| == 12 && (StartsWith(p, "2547") || StartsWith(p, "2541"))
  }

  /** The inputs it says are accepted: 07…, 01… and 2547…, the last with or without a plus
      sign. */
  predicate Documented(digits: string) {
    || (|digits| == 10 && (StartsWith(digits, "07") || StartsWith(digits, "01")))
    || (|digits| == 12 && StartsWith(digits, "2547"))
  }

  /** Any twelve digits starting 254 pass, so both halves of the promise fail on some input. */
  lemma OtherPrefixesPass(nd: CharClass)
    requires CoversDigits(nd)
    ensures Normalize(nd, "254999999999") == Some("254999999999") && !PromisedForm("254999999999")
    ensures !Documented(DigitsOf(nd, "254999999999"))
  {
    hide DigitsOf;
    var raw := "254999999999";
    forall c | c in raw ensures nd(c) {
      assert c == '2' || c == '5' || c == '4' || c == '9';
    }
    DigitsOfDigits(nd, raw);
    assert raw[..3] == "254" && raw[..4][3] == '9';
  }

  /** The result, when there is one, has the promised form except exactly on twelve digits
      starting 254 whose fourth is neither 7 nor 1. */
  lemma PromiseHoldsIff(nd: CharClass, raw: string)
    ensures var digits := DigitsOf(nd, raw);
            (Normalize(nd, raw).Some? ==> PromisedForm(Normalize(nd, raw).value))
            <==> !(|digits| == 12 && StartsWith(digits, "254") && digits[3] !in "17")
  {
    var digits := DigitsOf(nd, raw);
    hide DigitsOf;
    if Normalize(nd, raw).Some? {
      var p := Normalize(nd, raw).value;
      assert "254" + "7" == "2547" && "254" + "1" == "2541";
      PrefixAt(p, "254", '7');
      PrefixAt(p, "254", '1');
      assert |digits| == 10 ==> p[3] == digits[1];
      assert |digits| == 9 ==> p[3] == digits[0] && digits[..1] == [digits[0]];
    }
  }

  /** Exactly the documented inputs are accepted, except that twelve digits starting 254 with a
      fourth other than 7, and nine digits starting 7 or 1, are accepted too: on no other input
      do the comment and the code part. */
  lemma RaisesAsDocumentedIff(nd: CharClass, raw: string)
    ensures var digits := DigitsOf(nd, raw);
            (Normalize(nd, raw).Some? <==> Documented(digits))
            <==> !(|digits| == 12 && StartsWith(digits, "254") && digits[3] != '7')
                 && !(|digits| == 9 && digits[0] in "17")
  {
    var digits := DigitsOf(nd, raw);
    hide DigitsOf;
    assert "0" + "7" == "07" && "0" + "1" == "01" && "254" + "7" == "2547";
    PrefixAt(digits, "0", '7');
    PrefixAt(digits, "0", '1');
    PrefixAt(digits, "254", '7');
    if |digits| > 0 {
      assert digits[..1] == [digits[0]];
    }
    if StartsWith(digits, "254") {
      assert digits[..3][0] == '2';
    }
  }
}
