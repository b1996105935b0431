/** components/UserInfoForm.tsx: `validateAndProceed`, the name and phone
    checks that guard the customer-details step. */
module UserInfoForm {
  import opened Wrappers
  import opened Text
  import opened Types

  /** The string without its trailing whitespace: a prefix of it. */
  function TrimEnd(s: string): (r: string)
    ensures |r| <= |s| && r == s[..|r|]
  {
    if s != [] && IsJsWhitespace(s[|s| - 1]) then TrimEnd(s[..|s| - 1]) else s
  }

  /** What TrimEnd leaves does not end with whitespace. */
  lemma {:induction false} TrimEndStops(s: string)
    ensures TrimEnd(s) == [] || !IsJsWhitespace(TrimEnd(s)[|TrimEnd(s)| - 1])
  {
    if s != [] && IsJsWhitespace(s[|s| - 1]) {
      TrimEndStops(s[..|s| - 1]);
    }
  }

  /** What TrimEnd removes is whitespace. */
  lemma {:induction false} TrimEndSkipsWhitespace(s: string)
    ensures forall i :: |TrimEnd(s)| <= i < |s| ==> IsJsWhitespace(s[i])
  {
    if s != [] && IsJsWhitespace(s[|s| - 1]) {
      var init := s[..|s| - 1];
      TrimEndSkipsWhitespace(init);
      forall i | |TrimEnd(s)| <= i < |s| - 1 ensures IsJsWhitespace(s[i]) {
        assert s[i] == init[i];
      }
    }
  }

  /** Trailing whitespace cut from a suffix u of s leaves a slice of s. */
  lemma TrimEndOfSuffixIsSlice(s: string, u: string, i: int)
    requires 0 <= i <= |s| && u == s[i..]
    ensures i + |TrimEnd(u)| <= |s|
    ensures TrimEnd(u) == s[i..i + |TrimEnd(u)|]
  {
    var r := TrimEnd(u);
    assert r == u[..|r|];
  }

  /** Everything of s after the trimmed suffix u is whitespace. */
  lemma TrimEndOfSuffixTail(s: string, u: string, i: int)
    requires 0 <= i <= |s| && u == s[i..]
    ensures forall k :: i + |TrimEnd(u)| <= k < |s| ==> IsJsWhitespace(s[k])
  {
    var r := TrimEnd(u);
    TrimEndSkipsWhitespace(u);
    forall k | i + |r| <= k < |s| ensures IsJsWhitespace(s[k]) {
      assert s[k] == u[k - i];
    }
  }

  /** `String.prototype.trim`: s without its leading and trailing whitespace. */
  function Trim(s: string): (r: string)
    ensures |r| <= |s|
  {
    TrimEnd(TrimStart(s))
  }

  /** What `trim` leaves neither starts nor ends with whitespace. */
  lemma TrimmedEnds(s: string)
    ensures Trim(s) == [] || (!IsJsWhitespace(Trim(s)[0]) && !IsJsWhitespace(Trim(s)[|Trim(s)| - 1]))
  {
    var u := TrimStart(s);
    var r := TrimEnd(u);
    TrimStartStops(s);
    TrimEndStops(u);
    assert r != [] ==> r[0] == u[0];
  }

  /** The trim is the slice of s that starts where the leading whitespace
      ends. */
  lemma TrimIsSlice(s: string)
    ensures |s| - |TrimStart(s)| + |Trim(s)| <= |s|
    ensures Trim(s) == s[|s| - |TrimStart(s)|..|s| - |TrimStart(s)| + |Trim(s)|]
  {
    var u := TrimStart(s);
    assert Trim(s) == TrimEnd(u);
    TrimEndOfSuffixIsSlice(s, u, |s| - |u|);
  }

  /** Everything `trim` cuts away, before and after the slice, is whitespace. */
  lemma TrimCutsOnlyWhitespace(s: string)
    ensures forall k :: 0 <= k < |s| - |TrimStart(s)| ==> IsJsWhitespace(s[k])
    ensures forall k :: |s| - |TrimStart(s)| + |Trim(s)| <= k < |s| ==> IsJsWhitespace(s[k])
  {
    var u := TrimStart(s);
    assert Trim(s) == TrimEnd(u);
    TrimStartSkipsWhitespace(s);
    TrimEndOfSuffixTail(s, u, |s| - |u|);
  }

  /** A string with no whitespace at either end is its own trim. */
  lemma TrimmedIsFixed(s: string)
    requires s == [] || (!IsJsWhitespace(s[0]) && !IsJsWhitespace(s[|s| - 1]))
    ensures Trim(s) == s
  {
    var u := TrimStart(s);
    assert u == s;
    var r := TrimEnd(u);
    assert r == s;
  }

  /** Trimming twice is trimming once. */
  lemma TrimIdempotent(s: string)
    ensures Trim(Trim(s)) == Trim(s)
  {
    TrimmedEnds(s);
    TrimmedIsFixed(Trim(s));
  }

  /** `localUserInfo.name.trim().length < 3`. */
  predicate NameError(name: string) {
    |Trim(name)| < 3
  }

  /** `/^(09)\d{9}$/.test(phone.trim())`: "09" and nine ASCII digits, eleven
      characters in all. */
  predicate PhoneValid(phone: string) {
    var t := Trim(phone);
    |t| == 11 && t[0] == '0' && t[1] == '9' && AllDigits(t[2..])
  }

  /** The phone check, stated as the pattern it implements. */
  lemma PhoneValidIff(phone: string)
    ensures PhoneValid(phone) <==> exists digits :: |digits| == 9 && AllDigits(digits) && Trim(phone) == "09" + digits
  {
    var t := Trim(phone);
    if PhoneValid(phone) {
      assert t == "09" + t[2..];
    }
    forall digits | |digits| == 9 && AllDigits(digits) && t == "09" + digits
      ensures PhoneValid(phone)
    {
      assert t[2..] == digits;
    }
  }

  /** The two error flags of the form. */
  datatype FormErrors = FormErrors(name: bool, phone: bool)

  /** What `validateAndProceed` does: the error flags it sets, and the details it
      hands to the app (None when it does not proceed). */
  datatype Validation = Validation(errors: FormErrors, handedOver: Option<UserInfo>)

  /** `validateAndProceed`: both flags always come from the current input;
      the details are handed over, untrimmed, exactly when both checks pass. */
  function ValidateAndProceed(info: UserInfo): (v: Validation)
    ensures v.errors.name <==> |Trim(info.name)| < 3
    ensures !v.errors.phone <==> exists digits :: |digits| == 9 && AllDigits(digits) && Trim(info.phone) == "09" + digits
    ensures v.handedOver.Some? <==> !v.errors.name && !v.errors.phone
    ensures v.handedOver.Some? ==> v.handedOver.value == info
  {
    var nameError := NameError(info.name);
    var phoneError := !PhoneValid(info.phone);
    PhoneValidIff(info.phone);
    Validation(FormErrors(nameError, phoneError),
               if !nameError && !phoneError then Some(info) else None)
  }

  /** Leading whitespace before a part that does not start with whitespace
      is exactly what `TrimStart` removes. */
  lemma {:induction false} TrimStartPadded(pre: string, rest: string)
    requires forall i :: 0 <= i < |pre| ==> IsJsWhitespace(pre[i])
    requires rest == [] || !IsJsWhitespace(rest[0])
    ensures TrimStart(pre + rest) == rest
  {
    if pre == [] {
      assert pre + rest == rest;
    } else {
      assert (pre + rest)[1..] == pre[1..] + rest;
      TrimStartPadded(pre[1..], rest);
    }
  }

  /** Trailing whitespace after a part that does not end with whitespace is
      exactly what `TrimEnd` removes. */
  lemma {:induction false} TrimEndPadded(rest: string, post: string)
    requires forall i :: 0 <= i < |post| ==> IsJsWhitespace(post[i])
    requires rest == [] || !IsJsWhitespace(rest[|rest| - 1])
    ensures TrimEnd(rest + post) == rest
  {
    if post == [] {
      assert rest + post == rest;
    } else {
      var q := rest + post;
      assert q[..|q| - 1] == rest + post[..|post| - 1];
      TrimEndPadded(rest, post[..|post| - 1]);
    }
  }

  /** Whitespace around a non-blank text is what `trim` removes. */
  lemma TrimPadded(pre: string, core: string, post: string)
    requires forall i :: 0 <= i < |pre| ==> IsJsWhitespace(pre[i])
    requires forall i :: 0 <= i < |post| ==> IsJsWhitespace(post[i])
    requires core != [] && !IsJsWhitespace(core[0]) && !IsJsWhitespace(core[|core| - 1])
    ensures Trim(pre + core + post) == core
  {
    assert pre + core + post == pre + (core + post);
    assert (core + post)[0] == core[0];
    TrimStartPadded(pre, core + post);
    TrimEndPadded(core, post);
  }

  /** Skipping the leading whitespace of a text made only of whitespace
      leaves nothing. */
  lemma {:induction false} BlankTrimStart(s: string)
    requires forall i :: 0 <= i < |s| ==> IsJsWhitespace(s[i])
    ensures TrimStart(s) == []
  {
    if s != [] {
      BlankTrimStart(s[1..]);
    }
  }

  /** A text made only of whitespace trims to nothing. */
  lemma BlankTrimsToEmpty(s: string)
    requires forall i :: 0 <= i < |s| ==> IsJsWhitespace(s[i])
    ensures Trim(s) == []
  {
    BlankTrimStart(s);
  }

  /** Surrounding whitespace does not count: a padded name is refused exactly
      when the name itself is shorter than three characters. */
  lemma NameIgnoresPadding(pre: string, name: string, post: string)
    requires forall i :: 0 <= i < |pre| ==> IsJsWhitespace(pre[i])
    requires forall i :: 0 <= i < |post| ==> IsJsWhitespace(post[i])
    requires name != [] && !IsJsWhitespace(name[0]) && !IsJsWhitespace(name[|name| - 1])
    ensures NameError(pre + name + post) <==> |name| < 3
  {
    TrimPadded(pre, name, post);
  }

  /** A name of blanks only is refused, however long. */
  lemma BlankNameRefused(name: string)
    requires forall i :: 0 <= i < |name| ==> IsJsWhitespace(name[i])
    ensures NameError(name)
  {
    BlankTrimsToEmpty(name);
  }

  /** "09" and nine digits are accepted with any whitespace around them. */
  lemma PhoneIgnoresPadding(pre: string, digits: string, post: string)
    requires forall i :: 0 <= i < |pre| ==> IsJsWhitespace(pre[i])
    requires forall i :: 0 <= i < |post| ==> IsJsWhitespace(post[i])
    requires |digits| == 9 && AllDigits(digits)
    ensures PhoneValid(pre + ("09" + digits) + post)
  {
    var phone := "09" + digits;
    assert phone[0] == '0' && phone[|phone| - 1] == digits[8];
    TrimPadded(pre, phone, post);
    assert phone[2..] == digits;
  }

  /** An accepted phone trims to eleven ASCII digits starting with "09". */
  lemma AcceptedPhoneIsElevenDigits(phone: string)
    requires PhoneValid(phone)
    ensures var t := Trim(phone); |t| == 11 && t[..2] == "09" && AllDigits(t)
  {
    var t := Trim(phone);
    forall i | 0 <= i < |t| ensures IsDigit(t[i]) {
      if i >= 2 {
        assert t[i] == t[2..][i - 2];
      }
    }
  }
}
