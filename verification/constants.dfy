/** The application-wide constants the account and leaderboard code use. */
module Constants {
  import opened Text

  // Verification codes
  const MinimumVerificationCodeValue: int := 100000
  const MaximumVerificationCodeValue: int := 999999
  const VerificationCodeSendingDelayMilliseconds: int := 1000

  // Leaderboard
  const CompletedQuizzesCriteria: string := "CompletedQuizzes"
  const AccuracyCriteria: string := "Accuracy"
  const NoRankValue: int := -1
  const RankIndexAdjustment: int := 1

  /** Every admissible code prints as exactly six decimal digits. */
  lemma VerificationCodesHaveSixDigits(code: int)
    requires MinimumVerificationCodeValue <= code <= MaximumVerificationCodeValue
    ensures |NatToString(code)| == 6
  {
    assert Pow10(5) == 100000 && Pow10(6) == 1000000;
    NatToStringLength(code, 5);
  }
}
