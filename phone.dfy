/** The Korean mobile-number rule that both recipient paths apply: the manual
    entry's O/X marker and the spreadsheet import's row checks. */
module Phone {
  import opened Text

  /** A phone number (digits, hyphens already removed) is accepted when it starts
      with "01"; one starting with "010" must have exactly 11 digits, any other
      "01x" number 10 or 11. */
  predicate IsValid(s: string) {
    StartsWith(s, "01") &&
    (StartsWith(s, "010") ==> |s| == 11) &&
    (!StartsWith(s, "010") ==> 10 <= |s| <= 11)
  }

  /** The documented examples: an 11-digit "010" number is valid, a 10-digit one
      is not, a 10-digit "016" number is valid, a "02" number is not. */
  lemma Examples()
    ensures IsValid("01012345678")
    ensures !IsValid("0101234567")
    ensures IsValid("0161234567")
    ensures !IsValid("0212345678")
  {
    assert "0161234567"[..3] == "016";
    assert "0212345678"[..2] == "02";
  }
}
