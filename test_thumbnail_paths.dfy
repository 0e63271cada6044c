/**
 * The thumbnail path rule of the path-formatting test script: a
 * seven-character id with a leading zero loses that zero, every other id
 * is used as it is.
 */
module ThumbnailPathFormat {
  import PyText
  import ThumbnailTester

  /** The rule's condition: seven characters, the first a zero. */
  predicate SevenWithLeadingZero(songId: string) {
    |songId| == 7 && songId[0] == '0'
  }

  /** The id `format_thumbnail_path` puts in the path. */
  function FormatId(songId: string): string {
    if SevenWithLeadingZero(songId) then songId[1..] else songId
  }

  /** `format_thumbnail_path`: `thumbnails/{formatted}.png`. */
  function FormatPath(songId: string): string {
    "thumbnails/" + FormatId(songId) + ".png"
  }

  /**
   * The id changes exactly when the rule applies, and then it loses just
   * its first character, leaving six.
   */
  lemma FormatIdCases(songId: string)
    ensures FormatId(songId) != songId <==> SevenWithLeadingZero(songId)
    ensures SevenWithLeadingZero(songId) ==> FormatId(songId) == songId[1..] && |FormatId(songId)| == 6
  {
    if SevenWithLeadingZero(songId) {
      assert |FormatId(songId)| == 6;
    }
  }

  /** A formatted id is not formatted again. */
  lemma FormatIdIdempotent(songId: string)
    ensures FormatId(FormatId(songId)) == FormatId(songId)
  {
    FormatIdCases(songId);
  }

  /** The ids the script exercises, all seven characters with leading zeros. */
  const TestIds: seq<string> := [
    "0000500", "0000600", "0000670", "0000805", "0000807",
    "0000826", "0000827", "0000828", "0000829", "0000834",
    "0000835", "0000836", "0000864", "0000865", "0000866",
    "0000867", "0000890", "0000986", "0000987", "0000988"]

  /** Every exercised id loses its first zero. */
  lemma TestIdsLoseFirstZero()
    ensures forall i :: 0 <= i < |TestIds| ==> FormatId(TestIds[i]) == TestIds[i][1..] && |FormatId(TestIds[i])| == 6
  {
    forall i | 0 <= i < |TestIds|
      ensures FormatId(TestIds[i]) == TestIds[i][1..] && |FormatId(TestIds[i])| == 6
    {
      assert |TestIds[i]| == 7 && TestIds[i][0] == '0';
    }
  }

  /** The script's edge cases: only the seven-character id with a leading zero changes. */
  lemma EdgeCases()
    ensures FormatPath("0123456") == "thumbnails/123456.png"
    ensures FormatId("123") == "123" && FormatId("1234567") == "1234567"
    ensures FormatId("00123") == "00123" && FormatId("abc123") == "abc123"
  {
    assert "0123456"[1..] == "123456";
  }

  /** What `lstrip('0')` keeps of a digit string does not start with a sign. */
  lemma StrippedDigitsUnsigned(s: string)
    requires PyText.AllDigits(s)
    ensures PyText.LStripChar(s, '0') == [] || !PyText.IsSign(PyText.LStripChar(s, '0')[0])
  {
    var core := PyText.LStripChar(s, '0');
    if core != [] {
      PyText.LStripCharSplit(s, '0');
      assert core[0] == s[|s| - |core|];
    }
  }

  /**
   * For a seven-digit id with a leading zero the rule gives the same path
   * as the tester's strip-then-pad derivation.
   */
  lemma AgreesWithTester(songId: string)
    requires SevenWithLeadingZero(songId) && PyText.AllDigits(songId)
    ensures FormatPath(songId) == ThumbnailTester.ProbePath(songId)
  {
    var rest := songId[1..];
    assert songId == PyText.Zeros(1) + rest;
    assert PyText.AllDigits(rest) by {
      assert forall i :: 0 <= i < |rest| ==> rest[i] == songId[i + 1];
    }
    StrippedDigitsUnsigned(rest);
    ThumbnailTester.SameIdWithLeadingZeros(1, rest);
    ThumbnailTester.SixCharacterIdKept(rest);
  }

  /** Shorter ids disagree: the tester pads them to six characters, the rule leaves them as they are. */
  lemma DisagreesWithTesterOnShortIds(songId: string)
    requires |songId| < 6
    ensures FormatPath(songId) != ThumbnailTester.ProbePath(songId)
  {
    assert |FormatPath(songId)| < |ThumbnailTester.ProbePath(songId)|;
  }
}
