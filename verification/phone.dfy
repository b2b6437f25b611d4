/** The loose mobile-number check the funding endpoint applies before
    anything else: drop white space and dashes, then match
    /^(\+?\d{8,15}|0\d{8,14})$/. */
module Phone {
  import opened JsValues

  predicate IsSeparator(c: char) {
    IsJsWhitespace(c) || c == '-'
  }

  /** `.replace(/\s|-/g, '')`: the input with every white-space character
      and every dash removed, the rest kept in order. What it keeps is
      stated by StripSeparatorsKeepsTheRest and StripSeparatorsSplits. */
  function StripSeparators(s: string): (r: string)
    ensures |r| <= |s|
  {
    if s == [] then []
    else if IsSeparator(s[0]) then StripSeparators(s[1..])
    else [s[0]] + StripSeparators(s[1..])
  }

  /** The result holds no white space and no dash. */
  lemma {:induction false} StripSeparatorsDropsSeparators(s: string)
    ensures forall i :: 0 <= i < |StripSeparators(s)| ==> !IsSeparator(StripSeparators(s)[i])
  {
    if s != [] {
      StripSeparatorsDropsSeparators(s[1..]);
    }
  }

  /** Every character other than white space and dashes is kept exactly as
      often as it occurs in the input. */
  lemma {:induction false} StripSeparatorsKeepsTheRest(s: string)
    ensures forall c :: !IsSeparator(c) ==> multiset(StripSeparators(s))[c] == multiset(s)[c]
  {
    if s != [] {
      StripSeparatorsKeepsTheRest(s[1..]);
      assert s == [s[0]] + s[1..];
    }
  }

  /** An input without white space and dashes comes back unchanged. */
  lemma {:induction false} StripSeparatorsKeepsClean(s: string)
    requires forall i :: 0 <= i < |s| ==> !IsSeparator(s[i])
    ensures StripSeparators(s) == s
  {
    if s != [] {
      assert forall i :: 0 <= i < |s[1..]| ==> !IsSeparator(s[1..][i]) by {
        forall i | 0 <= i < |s[1..]| ensures !IsSeparator(s[1..][i]) {
          assert s[1..][i] == s[i + 1];
        }
      }
      StripSeparatorsKeepsClean(s[1..]);
      assert s == [s[0]] + s[1..];
    }
  }

  /** Stripping works character by character, so it keeps the order:
      stripping a concatenation concatenates the stripped parts. */
  lemma {:induction false} StripSeparatorsSplits(a: string, b: string)
    ensures StripSeparators(a + b) == StripSeparators(a) + StripSeparators(b)
  {
    if a == [] {
      assert a + b == b;
    } else {
      assert (a + b)[0] == a[0];
      assert (a + b)[1..] == a[1..] + b;
      StripSeparatorsSplits(a[1..], b);
      if !IsSeparator(a[0]) {
        assert [a[0]] + (StripSeparators(a[1..]) + StripSeparators(b))
            == ([a[0]] + StripSeparators(a[1..])) + StripSeparators(b);
      }
    }
  }

  /** The regular expression, both alternatives as written. */
  predicate MatchesPhonePattern(s: string) {
    || (|s| >= 1 && s[0] == '+' && 8 <= |s| - 1 <= 15 && AllDigits(s[1..]))
    || (8 <= |s| <= 15 && AllDigits(s))
    || (|s| >= 1 && s[0] == '0' && 8 <= |s| - 1 <= 14 && AllDigits(s[1..]))
  }

  /** An optional '+' followed by 8 to 15 ASCII digits. */
  predicate LooseMsisdn(s: string) {
    var digits := if |s| > 0 && s[0] == '+' then s[1..] else s;
    8 <= |digits| <= 15 && AllDigits(digits)
  }

  /** phoneIsValid: a falsy value is refused; otherwise its String() form
      without white space and dashes must match the pattern, which accepts
      exactly an optional '+' followed by 8 to 15 digits. */
  function PhoneIsValid(phone: Json): (ok: bool)
    ensures ok <==> Truthy(phone) && LooseMsisdn(StripSeparators(ToJsString(phone)))
  {
    Truthy(phone) &&
      var cleaned := StripSeparators(ToJsString(phone));
      LocalAlternativeIsRedundant(cleaned);
      MatchesPhonePattern(cleaned)
  }

  /** The local 0-leading alternative accepts nothing the first one does not. */
  lemma LocalAlternativeIsRedundant(s: string)
    ensures MatchesPhonePattern(s) <==> LooseMsisdn(s)
  {
    if |s| >= 1 && s[0] == '0' && 8 <= |s| - 1 <= 14 && AllDigits(s[1..]) {
      assert forall i :: 1 <= i < |s| ==> s[i] == s[1..][i - 1];
      assert AllDigits(s);
    }
  }

  /** Absent and empty values are refused, and a white-space character or
      dash anywhere in a string does not change the verdict. */
  lemma PhoneValidity(a: string, c: char, b: string)
    requires IsSeparator(c)
    ensures !PhoneIsValid(Null) && !PhoneIsValid(Str(""))
    ensures PhoneIsValid(Str(a + [c] + b)) <==> PhoneIsValid(Str(a + b))
  {
    calc {
      StripSeparators(a + [c] + b);
      { StripSeparatorsSplits(a + [c], b); }
      StripSeparators(a + [c]) + StripSeparators(b);
      { StripSeparatorsSplits(a, [c]); assert StripSeparators([c]) == []; }
      StripSeparators(a) + StripSeparators(b);
      { StripSeparatorsSplits(a, b); }
      StripSeparators(a + b);
    }
    StringPhoneValidity(a + [c] + b);
    StringPhoneValidity(a + b);
  }

  /** For a string input, emptiness needs no separate test: an empty string
      strips to nothing and fails the pattern anyway. */
  lemma StringPhoneValidity(s: string)
    ensures PhoneIsValid(Str(s)) <==> LooseMsisdn(StripSeparators(s))
  {
    LocalAlternativeIsRedundant(StripSeparators(s));
  }
}
