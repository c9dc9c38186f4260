/** `formatPhone`: the fixed positional splice that the modal applies to a
    person's raw phone string (js/scripts.js:141-150). */
module Phone {
  import opened JsString
  import opened Decimal

  /** Shortest input the splice is applied to. */
  const MinSpliceLength: nat := 14

  /** Replaces the character at index 5 with a space and keeps at most the
      characters up to index 15; inputs shorter than 14 are returned as is. */
  function FormatPhone(phone: string): (r: string)
    ensures |phone| < MinSpliceLength ==> |r| == |phone|
    ensures |phone| >= MinSpliceLength ==> |r| == Min(|phone|, 15)
  {
    if |phone| >= MinSpliceLength then
      Substring(phone, 0, 5) + " " + Substring(phone, 6, 15)
    else
      phone
  }

  /** `(XXX)-XXX-XXXX`, the layout the comment at js/scripts.js:142 starts from. */
  predicate IsDashedLayout(s: string) {
    && |s| == 14
    && s[0] == '(' && s[4] == ')' && s[5] == '-' && s[9] == '-'
    && (forall i :: 1 <= i < 4 ==> IsDecimalDigit(s[i]))
    && (forall i :: 6 <= i < 9 ==> IsDecimalDigit(s[i]))
    && (forall i :: 10 <= i < 14 ==> IsDecimalDigit(s[i]))
  }

  /** `(XXX) XXX-XXXX`, the layout the same comment aims for. */
  predicate IsConventionalLayout(s: string) {
    && |s| == 14
    && s[0] == '(' && s[4] == ')' && s[5] == ' ' && s[9] == '-'
    && (forall i :: 1 <= i < 4 ==> IsDecimalDigit(s[i]))
    && (forall i :: 6 <= i < 9 ==> IsDecimalDigit(s[i]))
    && (forall i :: 10 <= i < 14 ==> IsDecimalDigit(s[i]))
  }

  /** Below 14 characters the input comes back untouched. */
  lemma FormatPhoneShort(phone: string)
    requires |phone| < MinSpliceLength
    ensures FormatPhone(phone) == phone
  {
  }

  /** From 14 characters on, the result is the first five characters, a
      space, and the characters from index 6 up to index 15 or the end of the
      input, whichever comes first. */
  lemma FormatPhoneSplice(phone: string)
    requires |phone| >= MinSpliceLength
    ensures FormatPhone(phone) == phone[..5] + " " + phone[6..Min(15, |phone|)]
  {
  }

  /** The shape of a spliced result: its length, the untouched first five
      characters, the space at index 5, and the characters after it, which
      are the input's from index 6 on. */
  lemma FormatPhoneShape(phone: string)
    requires |phone| >= MinSpliceLength
    ensures |FormatPhone(phone)| == Min(|phone|, 15)
    ensures FormatPhone(phone)[..5] == phone[..5]
    ensures FormatPhone(phone)[5] == ' '
    ensures forall i :: 6 <= i < |FormatPhone(phone)| ==> FormatPhone(phone)[i] == phone[i]
  {
    FormatPhoneSplice(phone);
  }

  /** For 14 or 15 characters the splice is a one-character substitution:
      every position except index 5 keeps its character. */
  lemma FormatPhoneOnlySeparatorChanges(phone: string)
    requires |phone| == 14 || |phone| == 15
    ensures |FormatPhone(phone)| == |phone|
    ensures FormatPhone(phone)[5] == ' '
    ensures forall i :: 0 <= i < |phone| && i != 5 ==> FormatPhone(phone)[i] == phone[i]
  {
    FormatPhoneShape(phone);
    var r := FormatPhone(phone);
    forall i | 0 <= i < |phone| && i != 5
      ensures r[i] == phone[i]
    {
      if i < 5 {
        assert r[i] == r[..5][i];
      }
    }
  }

  /** Past 15 characters everything from index 15 on is dropped. */
  lemma FormatPhoneTruncates(phone: string)
    requires |phone| > 15
    ensures |FormatPhone(phone)| == 15
    ensures FormatPhone(phone)[6..] == phone[6..15]
  {
    FormatPhoneSplice(phone);
  }

  /** Formatting an already formatted number changes nothing. */
  lemma FormatPhoneIdempotent(phone: string)
    ensures FormatPhone(FormatPhone(phone)) == FormatPhone(phone)
  {
    var r := FormatPhone(phone);
    if |phone| >= MinSpliceLength {
      FormatPhoneShape(phone);
      FormatPhoneSplice(r);
      assert Min(15, |r|) == |r|;
      var again := FormatPhone(r);
      assert |again| == |r|;
      forall i | 0 <= i < |r|
        ensures again[i] == r[i]
      {
        if i < 5 {
          assert again[i] == r[..5][i];
        } else if i > 5 {
          assert again[i] == r[6..][i - 6];
        }
      }
    }
  }

  /** Both the dashed layout and the conventional layout come out in the
      conventional layout `(XXX) XXX-XXXX`. */
  lemma FormatPhoneNormalisesLayout(phone: string)
    requires IsDashedLayout(phone) || IsConventionalLayout(phone)
    ensures IsConventionalLayout(FormatPhone(phone))
  {
    FormatPhoneOnlySeparatorChanges(phone);
  }

  /** A number already in the conventional layout is left exactly as it was. */
  lemma FormatPhoneKeepsConventional(phone: string)
    requires IsConventionalLayout(phone)
    ensures FormatPhone(phone) == phone
  {
    FormatPhoneOnlySeparatorChanges(phone);
  }
}
