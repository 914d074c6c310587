/** The examples of the scorer's unit tests, worked through the model: each
    score is computed exactly, then compared as the tests compare them. */
module ScorerSamples {
  import opened Common
  import opened Scorer

  const TEST_CAP: seq<byte> := [84, 101, 115, 116]  // "Test"
  const TEST: seq<byte> := [116, 101, 115, 116]  // "test"
  const TEST_BEGIN_CAP: seq<byte> := [84, 101, 115, 116, 32, 98, 101, 103, 105, 110, 33]  // "Test begin!"
  const TEST_BEGIN: seq<byte> := [116, 101, 115, 116, 32, 98, 101, 103, 105, 110, 33]  // "test begin!"
  const SECOND_TEST_CAP: seq<byte> := [115, 101, 99, 111, 110, 100, 32, 84, 101, 115, 116]  // "second Test"
  const SECOND_TEST: seq<byte> := [115, 101, 99, 111, 110, 100, 32, 116, 101, 115, 116]  // "second test"
  const INSIDE_TEST_CAP: seq<byte> := [105, 110, 115, 105, 100, 101, 84, 101, 115, 116, 33]  // "insideTest!"
  const INSIDE_TEST: seq<byte> := [105, 110, 115, 105, 100, 101, 116, 101, 115, 116, 33]  // "insidetest!"
  const TESTING_CAP: seq<byte> := [84, 101, 115, 116, 105, 110, 103]  // "Testing"
  const TESTING: seq<byte> := [116, 101, 115, 116, 105, 110, 103]  // "testing"
  const TET: seq<byte> := [116, 101, 116]  // "tet"
  const TESAT: seq<byte> := [116, 101, 115, 97, 116]  // "tesat"
  const TEXT: seq<byte> := [116, 101, 120, 116]  // "text"
  const THREE_EXCEPTIONS: seq<byte> := [116, 104, 114, 101, 101, 32, 101, 120, 99, 101, 112, 116, 105, 111, 110, 115]  // "three exceptions"

  /** Downcasing maps s to t when it maps each byte of s to that of t. */
  lemma LowerEach(s: seq<byte>, t: seq<byte>)
    requires |s| == |t| && forall i :: 0 <= i < |s| ==> LowerByte(s[i]) == t[i]
    ensures Lower(s) == t
  {
    assert |Lower(s)| == |t|;
  }

  lemma LowerTestCap()
    ensures Lower(TEST_CAP) == TEST
  {
    LowerEach(TEST_CAP, TEST);
  }

  lemma LowerTestBeginCap()
    ensures Lower(TEST_BEGIN_CAP) == TEST_BEGIN
  {
    LowerEach(TEST_BEGIN_CAP, TEST_BEGIN);
  }

  lemma LowerSecondTestCap()
    ensures Lower(SECOND_TEST_CAP) == SECOND_TEST
  {
    LowerEach(SECOND_TEST_CAP, SECOND_TEST);
  }

  lemma LowerInsideTestCap()
    ensures Lower(INSIDE_TEST_CAP) == INSIDE_TEST
  {
    LowerEach(INSIDE_TEST_CAP, INSIDE_TEST);
  }

  lemma LowerTestingCap()
    ensures Lower(TESTING_CAP) == TESTING
  {
    LowerEach(TESTING_CAP, TESTING);
  }

  lemma LowerTest()
    ensures Lower(TEST) == TEST
  {
    LowerEach(TEST, TEST);
  }

  lemma LowerTesting()
    ensures Lower(TESTING) == TESTING
  {
    LowerEach(TESTING, TESTING);
  }

  lemma LowerTet()
    ensures Lower(TET) == TET
  {
    LowerEach(TET, TET);
  }

  lemma LowerTesat()
    ensures Lower(TESAT) == TESAT
  {
    LowerEach(TESAT, TESAT);
  }

  lemma LowerText()
    ensures Lower(TEXT) == TEXT
  {
    LowerEach(TEXT, TEXT);
  }

  lemma LowerThreeExceptions()
    ensures Lower(THREE_EXCEPTIONS) == THREE_EXCEPTIONS
  {
    LowerEach(THREE_EXCEPTIONS, THREE_EXCEPTIONS);
  }

  lemma ScoreAtBeginningRun()
    ensures Loop(TEST, TEST_CAP, TEST_BEGIN, TEST_BEGIN_CAP, Some(0.0), Start(TEST, TEST_BEGIN)) == Cursor(4, 4, 0.0, 4.0)
  {
    var f: Option<real> := Some(0.0);
    assert Start(TEST, TEST_BEGIN) == Cursor(0, 0, 0.0, 0.0) by {
      assert FirstHit(116, TEST_BEGIN, 0) == Some(0);
    }
    assert Step(TEST, TEST_CAP, TEST_BEGIN, TEST_BEGIN_CAP, f, Cursor(0, 0, 0.0, 0.0)) == Cursor(1, 1, 0.0, 1.0);
    assert Step(TEST, TEST_CAP, TEST_BEGIN, TEST_BEGIN_CAP, f, Cursor(1, 1, 0.0, 1.0)) == Cursor(2, 2, 0.0, 2.0);
    assert Step(TEST, TEST_CAP, TEST_BEGIN, TEST_BEGIN_CAP, f, Cursor(2, 2, 0.0, 2.0)) == Cursor(3, 3, 0.0, 3.0);
    assert Step(TEST, TEST_CAP, TEST_BEGIN, TEST_BEGIN_CAP, f, Cursor(3, 3, 0.0, 3.0)) == Cursor(4, 4, 0.0, 4.0);
    assert Loop(TEST, TEST_CAP, TEST_BEGIN, TEST_BEGIN_CAP, f, Cursor(4, 4, 0.0, 4.0)) == Cursor(4, 4, 0.0, 4.0);
    assert Loop(TEST, TEST_CAP, TEST_BEGIN, TEST_BEGIN_CAP, f, Cursor(3, 3, 0.0, 3.0)) == Cursor(4, 4, 0.0, 4.0);
    assert Loop(TEST, TEST_CAP, TEST_BEGIN, TEST_BEGIN_CAP, f, Cursor(2, 2, 0.0, 2.0)) == Cursor(4, 4, 0.0, 4.0);
    assert Loop(TEST, TEST_CAP, TEST_BEGIN, TEST_BEGIN_CAP, f, Cursor(1, 1, 0.0, 1.0)) == Cursor(4, 4, 0.0, 4.0);
    assert Loop(TEST, TEST_CAP, TEST_BEGIN, TEST_BEGIN_CAP, f, Cursor(0, 0, 0.0, 0.0)) == Cursor(4, 4, 0.0, 4.0);
  }

  lemma ScoreAtBeginningBlend()
    ensures Blend(TEST, TEST_BEGIN, Some(0.0), Cursor(4, 4, 0.0, 4.0)) == 183.0 / 220.0
  {
    assert |TEST| == 4 && |TEST_BEGIN| == 11 && TEST[0] == TEST_BEGIN[0];
    assert 4.0 / (|TEST| as real) == 1.0;
    assert (|TEST| as real) / (|TEST_BEGIN| as real) == 4.0 / 11.0;
  }

  /** `score("Test", "Test begin!", 0)` */
  lemma ScoreAtBeginning()
    ensures ScoreOf(Str(TEST_CAP), Str(TEST_BEGIN_CAP), Some(0.0)) == 183.0 / 220.0
  {
    LowerTestCap();
    LowerTestBeginCap();
    ScoreAtBeginningRun();
    ScoreAtBeginningBlend();
    assert |TEST_CAP| != |TEST_BEGIN_CAP|;
  }

  lemma ScoreAtWordBeginningRun()
    ensures Loop(TEST, TEST_CAP, SECOND_TEST, SECOND_TEST_CAP, Some(0.0), Start(TEST, SECOND_TEST)) == Cursor(11, 4, 0.0, 4.5)
  {
    var f: Option<real> := Some(0.0);
    assert Start(TEST, SECOND_TEST) == Cursor(7, 0, 0.0, 0.0) by {
      assert FirstHit(116, SECOND_TEST, 7) == Some(7);
      assert FirstHit(116, SECOND_TEST, 6) == Some(7);
      assert FirstHit(116, SECOND_TEST, 5) == Some(7);
      assert FirstHit(116, SECOND_TEST, 4) == Some(7);
      assert FirstHit(116, SECOND_TEST, 3) == Some(7);
      assert FirstHit(116, SECOND_TEST, 2) == Some(7);
      assert FirstHit(116, SECOND_TEST, 1) == Some(7);
      assert FirstHit(116, SECOND_TEST, 0) == Some(7);
    }
    assert Step(TEST, TEST_CAP, SECOND_TEST, SECOND_TEST_CAP, f, Cursor(7, 0, 0.0, 0.0)) == Cursor(8, 1, 0.0, 1.5);
    assert Step(TEST, TEST_CAP, SECOND_TEST, SECOND_TEST_CAP, f, Cursor(8, 1, 0.0, 1.5)) == Cursor(9, 2, 0.0, 2.5);
    assert Step(TEST, TEST_CAP, SECOND_TEST, SECOND_TEST_CAP, f, Cursor(9, 2, 0.0, 2.5)) == Cursor(10, 3, 0.0, 3.5);
    assert Step(TEST, TEST_CAP, SECOND_TEST, SECOND_TEST_CAP, f, Cursor(10, 3, 0.0, 3.5)) == Cursor(11, 4, 0.0, 4.5);
    assert Loop(TEST, TEST_CAP, SECOND_TEST, SECOND_TEST_CAP, f, Cursor(11, 4, 0.0, 4.5)) == Cursor(11, 4, 0.0, 4.5);
    assert Loop(TEST, TEST_CAP, SECOND_TEST, SECOND_TEST_CAP, f, Cursor(10, 3, 0.0, 3.5)) == Cursor(11, 4, 0.0, 4.5);
    assert Loop(TEST, TEST_CAP, SECOND_TEST, SECOND_TEST_CAP, f, Cursor(9, 2, 0.0, 2.5)) == Cursor(11, 4, 0.0, 4.5);
    assert Loop(TEST, TEST_CAP, SECOND_TEST, SECOND_TEST_CAP, f, Cursor(8, 1, 0.0, 1.5)) == Cursor(11, 4, 0.0, 4.5);
    assert Loop(TEST, TEST_CAP, SECOND_TEST, SECOND_TEST_CAP, f, Cursor(7, 0, 0.0, 0.0)) == Cursor(11, 4, 0.0, 4.5);
  }

  lemma ScoreAtWordBeginningBlend()
    ensures Blend(TEST, SECOND_TEST, Some(0.0), Cursor(11, 4, 0.0, 4.5)) == 135.0 / 176.0
  {
    assert |TEST| == 4 && |SECOND_TEST| == 11 && TEST[0] != SECOND_TEST[0];
    assert 4.5 / (|TEST| as real) == 9.0 / 8.0;
    assert (|TEST| as real) / (|SECOND_TEST| as real) == 4.0 / 11.0;
  }

  /** `score("Test", "second Test", 0)` */
  lemma ScoreAtWordBeginning()
    ensures ScoreOf(Str(TEST_CAP), Str(SECOND_TEST_CAP), Some(0.0)) == 135.0 / 176.0
  {
    LowerTestCap();
    LowerSecondTestCap();
    ScoreAtWordBeginningRun();
    ScoreAtWordBeginningBlend();
    assert |TEST_CAP| != |SECOND_TEST_CAP|;
  }

  lemma ScoreInsideWordRun()
    ensures Loop(TEST, TEST_CAP, INSIDE_TEST, INSIDE_TEST_CAP, Some(0.0), Start(TEST, INSIDE_TEST)) == Cursor(10, 4, 0.0, 4.0)
  {
    var f: Option<real> := Some(0.0);
    assert Start(TEST, INSIDE_TEST) == Cursor(6, 0, 0.0, 0.0) by {
      assert FirstHit(116, INSIDE_TEST, 6) == Some(6);
      assert FirstHit(116, INSIDE_TEST, 5) == Some(6);
      assert FirstHit(116, INSIDE_TEST, 4) == Some(6);
      assert FirstHit(116, INSIDE_TEST, 3) == Some(6);
      assert FirstHit(116, INSIDE_TEST, 2) == Some(6);
      assert FirstHit(116, INSIDE_TEST, 1) == Some(6);
      assert FirstHit(116, INSIDE_TEST, 0) == Some(6);
    }
    assert Step(TEST, TEST_CAP, INSIDE_TEST, INSIDE_TEST_CAP, f, Cursor(6, 0, 0.0, 0.0)) == Cursor(7, 1, 0.0, 1.0);
    assert Step(TEST, TEST_CAP, INSIDE_TEST, INSIDE_TEST_CAP, f, Cursor(7, 1, 0.0, 1.0)) == Cursor(8, 2, 0.0, 2.0);
    assert Step(TEST, TEST_CAP, INSIDE_TEST, INSIDE_TEST_CAP, f, Cursor(8, 2, 0.0, 2.0)) == Cursor(9, 3, 0.0, 3.0);
    assert Step(TEST, TEST_CAP, INSIDE_TEST, INSIDE_TEST_CAP, f, Cursor(9, 3, 0.0, 3.0)) == Cursor(10, 4, 0.0, 4.0);
    assert Loop(TEST, TEST_CAP, INSIDE_TEST, INSIDE_TEST_CAP, f, Cursor(10, 4, 0.0, 4.0)) == Cursor(10, 4, 0.0, 4.0);
    assert Loop(TEST, TEST_CAP, INSIDE_TEST, INSIDE_TEST_CAP, f, Cursor(9, 3, 0.0, 3.0)) == Cursor(10, 4, 0.0, 4.0);
    assert Loop(TEST, TEST_CAP, INSIDE_TEST, INSIDE_TEST_CAP, f, Cursor(8, 2, 0.0, 2.0)) == Cursor(10, 4, 0.0, 4.0);
    assert Loop(TEST, TEST_CAP, INSIDE_TEST, INSIDE_TEST_CAP, f, Cursor(7, 1, 0.0, 1.0)) == Cursor(10, 4, 0.0, 4.0);
    assert Loop(TEST, TEST_CAP, INSIDE_TEST, INSIDE_TEST_CAP, f, Cursor(6, 0, 0.0, 0.0)) == Cursor(10, 4, 0.0, 4.0);
  }

  lemma ScoreInsideWordBlend()
    ensures Blend(TEST, INSIDE_TEST, Some(0.0), Cursor(10, 4, 0.0, 4.0)) == 15.0 / 22.0
  {
    assert |TEST| == 4 && |INSIDE_TEST| == 11 && TEST[0] != INSIDE_TEST[0];
    assert 4.0 / (|TEST| as real) == 1.0;
    assert (|TEST| as real) / (|INSIDE_TEST| as real) == 4.0 / 11.0;
  }

  /** `score("Test", "insideTest!", 0)` */
  lemma ScoreInsideWord()
    ensures ScoreOf(Str(TEST_CAP), Str(INSIDE_TEST_CAP), Some(0.0)) == 15.0 / 22.0
  {
    LowerTestCap();
    LowerInsideTestCap();
    ScoreInsideWordRun();
    ScoreInsideWordBlend();
    assert |TEST_CAP| != |INSIDE_TEST_CAP|;
  }

  lemma ScoreSameCaseCapitalRun()
    ensures Loop(TEST, TEST_CAP, TESTING, TESTING_CAP, None, Start(TEST, TESTING)) == Cursor(4, 4, 0.0, 4.0)
  {
    var f: Option<real> := None;
    assert Start(TEST, TESTING) == Cursor(0, 0, 0.0, 0.0) by {
      assert FirstHit(116, TESTING, 0) == Some(0);
    }
    assert Step(TEST, TEST_CAP, TESTING, TESTING_CAP, f, Cursor(0, 0, 0.0, 0.0)) == Cursor(1, 1, 0.0, 1.0);
    assert Step(TEST, TEST_CAP, TESTING, TESTING_CAP, f, Cursor(1, 1, 0.0, 1.0)) == Cursor(2, 2, 0.0, 2.0);
    assert Step(TEST, TEST_CAP, TESTING, TESTING_CAP, f, Cursor(2, 2, 0.0, 2.0)) == Cursor(3, 3, 0.0, 3.0);
    assert Step(TEST, TEST_CAP, TESTING, TESTING_CAP, f, Cursor(3, 3, 0.0, 3.0)) == Cursor(4, 4, 0.0, 4.0);
    assert Loop(TEST, TEST_CAP, TESTING, TESTING_CAP, f, Cursor(4, 4, 0.0, 4.0)) == Cursor(4, 4, 0.0, 4.0);
    assert Loop(TEST, TEST_CAP, TESTING, TESTING_CAP, f, Cursor(3, 3, 0.0, 3.0)) == Cursor(4, 4, 0.0, 4.0);
    assert Loop(TEST, TEST_CAP, TESTING, TESTING_CAP, f, Cursor(2, 2, 0.0, 2.0)) == Cursor(4, 4, 0.0, 4.0);
    assert Loop(TEST, TEST_CAP, TESTING, TESTING_CAP, f, Cursor(1, 1, 0.0, 1.0)) == Cursor(4, 4, 0.0, 4.0);
    assert Loop(TEST, TEST_CAP, TESTING, TESTING_CAP, f, Cursor(0, 0, 0.0, 0.0)) == Cursor(4, 4, 0.0, 4.0);
  }

  lemma ScoreSameCaseCapitalBlend()
    ensures Blend(TEST, TESTING, None, Cursor(4, 4, 0.0, 4.0)) == 131.0 / 140.0
  {
    assert |TEST| == 4 && |TESTING| == 7 && TEST[0] == TESTING[0];
    assert 4.0 / (|TEST| as real) == 1.0;
    assert (|TEST| as real) / (|TESTING| as real) == 4.0 / 7.0;
  }

  /** `score("Test", "Testing")` */
  lemma ScoreSameCaseCapital()
    ensures ScoreOf(Str(TEST_CAP), Str(TESTING_CAP), None) == 131.0 / 140.0
  {
    LowerTestCap();
    LowerTestingCap();
    ScoreSameCaseCapitalRun();
    ScoreSameCaseCapitalBlend();
    assert |TEST_CAP| != |TESTING_CAP|;
  }

  lemma ScoreSameCaseLowerRun()
    ensures Loop(TEST, TEST, TESTING, TESTING, None, Start(TEST, TESTING)) == Cursor(4, 4, 0.0, 4.0)
  {
    var f: Option<real> := None;
    assert Start(TEST, TESTING) == Cursor(0, 0, 0.0, 0.0) by {
      assert FirstHit(116, TESTING, 0) == Some(0);
    }
    assert Step(TEST, TEST, TESTING, TESTING, f, Cursor(0, 0, 0.0, 0.0)) == Cursor(1, 1, 0.0, 1.0);
    assert Step(TEST, TEST, TESTING, TESTING, f, Cursor(1, 1, 0.0, 1.0)) == Cursor(2, 2, 0.0, 2.0);
    assert Step(TEST, TEST, TESTING, TESTING, f, Cursor(2, 2, 0.0, 2.0)) == Cursor(3, 3, 0.0, 3.0);
    assert Step(TEST, TEST, TESTING, TESTING, f, Cursor(3, 3, 0.0, 3.0)) == Cursor(4, 4, 0.0, 4.0);
    assert Loop(TEST, TEST, TESTING, TESTING, f, Cursor(4, 4, 0.0, 4.0)) == Cursor(4, 4, 0.0, 4.0);
    assert Loop(TEST, TEST, TESTING, TESTING, f, Cursor(3, 3, 0.0, 3.0)) == Cursor(4, 4, 0.0, 4.0);
    assert Loop(TEST, TEST, TESTING, TESTING, f, Cursor(2, 2, 0.0, 2.0)) == Cursor(4, 4, 0.0, 4.0);
    assert Loop(TEST, TEST, TESTING, TESTING, f, Cursor(1, 1, 0.0, 1.0)) == Cursor(4, 4, 0.0, 4.0);
    assert Loop(TEST, TEST, TESTING, TESTING, f, Cursor(0, 0, 0.0, 0.0)) == Cursor(4, 4, 0.0, 4.0);
  }

  lemma ScoreSameCaseLowerBlend()
    ensures Blend(TEST, TESTING, None, Cursor(4, 4, 0.0, 4.0)) == 131.0 / 140.0
  {
    assert |TEST| == 4 && |TESTING| == 7 && TEST[0] == TESTING[0];
    assert 4.0 / (|TEST| as real) == 1.0;
    assert (|TEST| as real) / (|TESTING| as real) == 4.0 / 7.0;
  }

  /** `score("test", "testing")` */
  lemma ScoreSameCaseLower()
    ensures ScoreOf(Str(TEST), Str(TESTING), None) == 131.0 / 140.0
  {
    LowerTest();
    LowerTesting();
    ScoreSameCaseLowerRun();
    ScoreSameCaseLowerBlend();
    assert |TEST| != |TESTING|;
  }

  lemma ScoreCapitalAgainstLowerRun()
    ensures Loop(TEST, TEST_CAP, TESTING, TESTING, None, Start(TEST, TESTING)) == Cursor(4, 4, 0.0, 3.5)
  {
    var f: Option<real> := None;
    assert Start(TEST, TESTING) == Cursor(0, 0, 0.0, 0.0) by {
      assert FirstHit(116, TESTING, 0) == Some(0);
    }
    assert Step(TEST, TEST_CAP, TESTING, TESTING, f, Cursor(0, 0, 0.0, 0.0)) == Cursor(1, 1, 0.0, 0.5);
    assert Step(TEST, TEST_CAP, TESTING, TESTING, f, Cursor(1, 1, 0.0, 0.5)) == Cursor(2, 2, 0.0, 1.5);
    assert Step(TEST, TEST_CAP, TESTING, TESTING, f, Cursor(2, 2, 0.0, 1.5)) == Cursor(3, 3, 0.0, 2.5);
    assert Step(TEST, TEST_CAP, TESTING, TESTING, f, Cursor(3, 3, 0.0, 2.5)) == Cursor(4, 4, 0.0, 3.5);
    assert Loop(TEST, TEST_CAP, TESTING, TESTING, f, Cursor(4, 4, 0.0, 3.5)) == Cursor(4, 4, 0.0, 3.5);
    assert Loop(TEST, TEST_CAP, TESTING, TESTING, f, Cursor(3, 3, 0.0, 2.5)) == Cursor(4, 4, 0.0, 3.5);
    assert Loop(TEST, TEST_CAP, TESTING, TESTING, f, Cursor(2, 2, 0.0, 1.5)) == Cursor(4, 4, 0.0, 3.5);
    assert Loop(TEST, TEST_CAP, TESTING, TESTING, f, Cursor(1, 1, 0.0, 0.5)) == Cursor(4, 4, 0.0, 3.5);
    assert Loop(TEST, TEST_CAP, TESTING, TESTING, f, Cursor(0, 0, 0.0, 0.0)) == Cursor(4, 4, 0.0, 3.5);
  }

  lemma ScoreCapitalAgainstLowerBlend()
    ensures Blend(TEST, TESTING, None, Cursor(4, 4, 0.0, 3.5)) == 67.0 / 80.0
  {
    assert |TEST| == 4 && |TESTING| == 7 && TEST[0] == TESTING[0];
    assert 3.5 / (|TEST| as real) == 7.0 / 8.0;
    assert (|TEST| as real) / (|TESTING| as real) == 4.0 / 7.0;
  }

  /** `score("Test", "testing")` */
  lemma ScoreCapitalAgainstLower()
    ensures ScoreOf(Str(TEST_CAP), Str(TESTING), None) == 67.0 / 80.0
  {
    LowerTestCap();
    LowerTesting();
    ScoreCapitalAgainstLowerRun();
    ScoreCapitalAgainstLowerBlend();
    assert |TEST_CAP| != |TESTING|;
  }

  lemma ScoreLowerAgainstCapitalRun()
    ensures Loop(TEST, TEST, TESTING, TESTING_CAP, None, Start(TEST, TESTING)) == Cursor(4, 4, 0.0, 3.5)
  {
    var f: Option<real> := None;
    assert Start(TEST, TESTING) == Cursor(0, 0, 0.0, 0.0) by {
      assert FirstHit(116, TESTING, 0) == Some(0);
    }
    assert Step(TEST, TEST, TESTING, TESTING_CAP, f, Cursor(0, 0, 0.0, 0.0)) == Cursor(1, 1, 0.0, 0.5);
    assert Step(TEST, TEST, TESTING, TESTING_CAP, f, Cursor(1, 1, 0.0, 0.5)) == Cursor(2, 2, 0.0, 1.5);
    assert Step(TEST, TEST, TESTING, TESTING_CAP, f, Cursor(2, 2, 0.0, 1.5)) == Cursor(3, 3, 0.0, 2.5);
    assert Step(TEST, TEST, TESTING, TESTING_CAP, f, Cursor(3, 3, 0.0, 2.5)) == Cursor(4, 4, 0.0, 3.5);
    assert Loop(TEST, TEST, TESTING, TESTING_CAP, f, Cursor(4, 4, 0.0, 3.5)) == Cursor(4, 4, 0.0, 3.5);
    assert Loop(TEST, TEST, TESTING, TESTING_CAP, f, Cursor(3, 3, 0.0, 2.5)) == Cursor(4, 4, 0.0, 3.5);
    assert Loop(TEST, TEST, TESTING, TESTING_CAP, f, Cursor(2, 2, 0.0, 1.5)) == Cursor(4, 4, 0.0, 3.5);
    assert Loop(TEST, TEST, TESTING, TESTING_CAP, f, Cursor(1, 1, 0.0, 0.5)) == Cursor(4, 4, 0.0, 3.5);
    assert Loop(TEST, TEST, TESTING, TESTING_CAP, f, Cursor(0, 0, 0.0, 0.0)) == Cursor(4, 4, 0.0, 3.5);
  }

  lemma ScoreLowerAgainstCapitalBlend()
    ensures Blend(TEST, TESTING, None, Cursor(4, 4, 0.0, 3.5)) == 67.0 / 80.0
  {
    assert |TEST| == 4 && |TESTING| == 7 && TEST[0] == TESTING[0];
    assert 3.5 / (|TEST| as real) == 7.0 / 8.0;
    assert (|TEST| as real) / (|TESTING| as real) == 4.0 / 7.0;
  }

  /** `score("test", "Testing")` */
  lemma ScoreLowerAgainstCapital()
    ensures ScoreOf(Str(TEST), Str(TESTING_CAP), None) == 67.0 / 80.0
  {
    LowerTest();
    LowerTestingCap();
    ScoreLowerAgainstCapitalRun();
    ScoreLowerAgainstCapitalBlend();
    assert |TEST| != |TESTING_CAP|;
  }

  lemma ScoreMissingByteRun()
    ensures Loop(TET, TET, TEST, TEST, None, Start(TET, TEST)) == Cursor(4, 3, 0.0, 1.0)
  {
    var f: Option<real> := None;
    assert Start(TET, TEST) == Cursor(0, 0, 0.0, 0.0) by {
      assert FirstHit(116, TEST, 0) == Some(0);
    }
    assert Step(TET, TET, TEST, TEST, f, Cursor(0, 0, 0.0, 0.0)) == Cursor(1, 1, 0.0, 1.0);
    assert Step(TET, TET, TEST, TEST, f, Cursor(1, 1, 0.0, 1.0)) == Cursor(2, 2, 0.0, 2.0);
    assert Step(TET, TET, TEST, TEST, f, Cursor(2, 2, 0.0, 2.0)) == Cursor(4, 3, 0.0, 1.0) by {
      assert FirstHit(116, TEST, 3) == Some(3);
      assert FirstHit(116, TEST, 2) == Some(3);
    }
    assert Loop(TET, TET, TEST, TEST, f, Cursor(4, 3, 0.0, 1.0)) == Cursor(4, 3, 0.0, 1.0);
    assert Loop(TET, TET, TEST, TEST, f, Cursor(2, 2, 0.0, 2.0)) == Cursor(4, 3, 0.0, 1.0);
    assert Loop(TET, TET, TEST, TEST, f, Cursor(1, 1, 0.0, 1.0)) == Cursor(4, 3, 0.0, 1.0);
    assert Loop(TET, TET, TEST, TEST, f, Cursor(0, 0, 0.0, 0.0)) == Cursor(4, 3, 0.0, 1.0);
  }

  lemma ScoreMissingByteBlend()
    ensures Blend(TET, TEST, None, Cursor(4, 3, 0.0, 1.0)) == 53.0 / 120.0
  {
    assert |TET| == 3 && |TEST| == 4 && TET[0] == TEST[0];
    assert 1.0 / (|TET| as real) == 1.0 / 3.0;
    assert (|TET| as real) / (|TEST| as real) == 3.0 / 4.0;
  }

  /** `score("tet", "test")` */
  lemma ScoreMissingByte()
    ensures ScoreOf(Str(TET), Str(TEST), None) == 53.0 / 120.0
  {
    LowerTet();
    LowerTest();
    ScoreMissingByteRun();
    ScoreMissingByteBlend();
    assert |TET| != |TEST|;
  }

  lemma ScoreExtraByteRun()
    ensures Loop(TESAT, TESAT, TEST, TEST, None, Start(TESAT, TEST)) == Cursor(5, 5, 0.0, 1.0)
  {
    var f: Option<real> := None;
    assert Start(TESAT, TEST) == Cursor(0, 0, 0.0, 0.0) by {
      assert FirstHit(116, TEST, 0) == Some(0);
    }
    assert Step(TESAT, TESAT, TEST, TEST, f, Cursor(0, 0, 0.0, 0.0)) == Cursor(1, 1, 0.0, 1.0);
    assert Step(TESAT, TESAT, TEST, TEST, f, Cursor(1, 1, 0.0, 1.0)) == Cursor(2, 2, 0.0, 2.0);
    assert Step(TESAT, TESAT, TEST, TEST, f, Cursor(2, 2, 0.0, 2.0)) == Cursor(3, 3, 0.0, 3.0);
    assert Step(TESAT, TESAT, TEST, TEST, f, Cursor(3, 3, 0.0, 3.0)) == Cursor(4, 4, 0.0, 2.0) by {
      assert FirstHit(97, TEST, 4) == None;
      assert FirstHit(97, TEST, 3) == None;
    }
    assert Step(TESAT, TESAT, TEST, TEST, f, Cursor(4, 4, 0.0, 2.0)) == Cursor(5, 5, 0.0, 1.0);
    assert Loop(TESAT, TESAT, TEST, TEST, f, Cursor(5, 5, 0.0, 1.0)) == Cursor(5, 5, 0.0, 1.0);
    assert Loop(TESAT, TESAT, TEST, TEST, f, Cursor(4, 4, 0.0, 2.0)) == Cursor(5, 5, 0.0, 1.0);
    assert Loop(TESAT, TESAT, TEST, TEST, f, Cursor(3, 3, 0.0, 3.0)) == Cursor(5, 5, 0.0, 1.0);
    assert Loop(TESAT, TESAT, TEST, TEST, f, Cursor(2, 2, 0.0, 2.0)) == Cursor(5, 5, 0.0, 1.0);
    assert Loop(TESAT, TESAT, TEST, TEST, f, Cursor(1, 1, 0.0, 1.0)) == Cursor(5, 5, 0.0, 1.0);
    assert Loop(TESAT, TESAT, TEST, TEST, f, Cursor(0, 0, 0.0, 0.0)) == Cursor(5, 5, 0.0, 1.0);
  }

  lemma ScoreExtraByteBlend()
    ensures Blend(TESAT, TEST, None, Cursor(5, 5, 0.0, 1.0)) == 3.0 / 8.0
  {
    assert |TESAT| == 5 && |TEST| == 4 && TESAT[0] == TEST[0];
    assert 1.0 / (|TESAT| as real) == 1.0 / 5.0;
    assert (|TESAT| as real) / (|TEST| as real) == 5.0 / 4.0;
  }

  /** `score("tesat", "test")` */
  lemma ScoreExtraByte()
    ensures ScoreOf(Str(TESAT), Str(TEST), None) == 3.0 / 8.0
  {
    LowerTesat();
    LowerTest();
    ScoreExtraByteRun();
    ScoreExtraByteBlend();
    assert |TESAT| != |TEST|;
  }

  lemma ScoreWrongByteRun()
    ensures Loop(TEXT, TEXT, TEST, TEST, None, Start(TEXT, TEST)) == Cursor(4, 4, 0.0, 2.0)
  {
    var f: Option<real> := None;
    assert Start(TEXT, TEST) == Cursor(0, 0, 0.0, 0.0) by {
      assert FirstHit(116, TEST, 0) == Some(0);
    }
    assert Step(TEXT, TEXT, TEST, TEST, f, Cursor(0, 0, 0.0, 0.0)) == Cursor(1, 1, 0.0, 1.0);
    assert Step(TEXT, TEXT, TEST, TEST, f, Cursor(1, 1, 0.0, 1.0)) == Cursor(2, 2, 0.0, 2.0);
    assert Step(TEXT, TEXT, TEST, TEST, f, Cursor(2, 2, 0.0, 2.0)) == Cursor(3, 3, 0.0, 1.0) by {
      assert FirstHit(120, TEST, 4) == None;
      assert FirstHit(120, TEST, 3) == None;
      assert FirstHit(120, TEST, 2) == None;
    }
    assert Step(TEXT, TEXT, TEST, TEST, f, Cursor(3, 3, 0.0, 1.0)) == Cursor(4, 4, 0.0, 2.0);
    assert Loop(TEXT, TEXT, TEST, TEST, f, Cursor(4, 4, 0.0, 2.0)) == Cursor(4, 4, 0.0, 2.0);
    assert Loop(TEXT, TEXT, TEST, TEST, f, Cursor(3, 3, 0.0, 1.0)) == Cursor(4, 4, 0.0, 2.0);
    assert Loop(TEXT, TEXT, TEST, TEST, f, Cursor(2, 2, 0.0, 2.0)) == Cursor(4, 4, 0.0, 2.0);
    assert Loop(TEXT, TEXT, TEST, TEST, f, Cursor(1, 1, 0.0, 1.0)) == Cursor(4, 4, 0.0, 2.0);
    assert Loop(TEXT, TEXT, TEST, TEST, f, Cursor(0, 0, 0.0, 0.0)) == Cursor(4, 4, 0.0, 2.0);
  }

  lemma ScoreWrongByteBlend()
    ensures Blend(TEXT, TEST, None, Cursor(4, 4, 0.0, 2.0)) == 13.0 / 20.0
  {
    assert |TEXT| == 4 && |TEST| == 4 && TEXT[0] == TEST[0];
    assert 2.0 / (|TEXT| as real) == 1.0 / 2.0;
    assert (|TEXT| as real) / (|TEST| as real) == 1.0;
  }

  /** `score("text", "test")` */
  lemma ScoreWrongByte()
    ensures ScoreOf(Str(TEXT), Str(TEST), None) == 13.0 / 20.0
  {
    LowerText();
    LowerTest();
    ScoreWrongByteRun();
    ScoreWrongByteBlend();
    assert TEXT[2] != TEST[2];
  }

  lemma ScoreScatteredEarlySteps()
    ensures Start(TEXT, THREE_EXCEPTIONS) == Cursor(0, 0, 0.0, 0.0)
    ensures Step(TEXT, TEXT, THREE_EXCEPTIONS, THREE_EXCEPTIONS, None, Cursor(0, 0, 0.0, 0.0)) == Cursor(1, 1, 0.0, 1.0)
    ensures Step(TEXT, TEXT, THREE_EXCEPTIONS, THREE_EXCEPTIONS, None, Cursor(1, 1, 0.0, 1.0)) == Cursor(4, 2, 0.0, 0.0)
  {
    assert FirstHit(116, THREE_EXCEPTIONS, 0) == Some(0);
    assert Step(TEXT, TEXT, THREE_EXCEPTIONS, THREE_EXCEPTIONS, None, Cursor(1, 1, 0.0, 1.0)) == Cursor(4, 2, 0.0, 0.0) by {
      assert FirstHit(101, THREE_EXCEPTIONS, 3) == Some(3);
      assert FirstHit(101, THREE_EXCEPTIONS, 2) == Some(3);
      assert FirstHit(101, THREE_EXCEPTIONS, 1) == Some(3);
    }
  }

  lemma ScoreScatteredLateSteps()
    ensures Step(TEXT, TEXT, THREE_EXCEPTIONS, THREE_EXCEPTIONS, None, Cursor(4, 2, 0.0, 0.0)) == Cursor(8, 3, 0.0, -1.0)
    ensures Step(TEXT, TEXT, THREE_EXCEPTIONS, THREE_EXCEPTIONS, None, Cursor(8, 3, 0.0, -1.0)) == Cursor(12, 4, 0.0, -2.0)
  {
    assert Step(TEXT, TEXT, THREE_EXCEPTIONS, THREE_EXCEPTIONS, None, Cursor(4, 2, 0.0, 0.0)) == Cursor(8, 3, 0.0, -1.0) by {
      assert FirstHit(120, THREE_EXCEPTIONS, 7) == Some(7);
      assert FirstHit(120, THREE_EXCEPTIONS, 6) == Some(7);
      assert FirstHit(120, THREE_EXCEPTIONS, 5) == Some(7);
      assert FirstHit(120, THREE_EXCEPTIONS, 4) == Some(7);
    }
    assert FirstHit(116, THREE_EXCEPTIONS, 11) == Some(11);
    assert FirstHit(116, THREE_EXCEPTIONS, 10) == Some(11);
    assert FirstHit(116, THREE_EXCEPTIONS, 9) == Some(11);
    assert FirstHit(116, THREE_EXCEPTIONS, 8) == Some(11);
  }

  lemma ScoreScatteredRun()
    ensures Loop(TEXT, TEXT, THREE_EXCEPTIONS, THREE_EXCEPTIONS, None, Start(TEXT, THREE_EXCEPTIONS)) == Cursor(12, 4, 0.0, -2.0)
  {
    var f: Option<real> := None;
    ScoreScatteredEarlySteps();
    ScoreScatteredLateSteps();
    assert Loop(TEXT, TEXT, THREE_EXCEPTIONS, THREE_EXCEPTIONS, f, Cursor(12, 4, 0.0, -2.0)) == Cursor(12, 4, 0.0, -2.0);
    assert Loop(TEXT, TEXT, THREE_EXCEPTIONS, THREE_EXCEPTIONS, f, Cursor(8, 3, 0.0, -1.0)) == Cursor(12, 4, 0.0, -2.0);
    assert Loop(TEXT, TEXT, THREE_EXCEPTIONS, THREE_EXCEPTIONS, f, Cursor(4, 2, 0.0, 0.0)) == Cursor(12, 4, 0.0, -2.0);
    assert Loop(TEXT, TEXT, THREE_EXCEPTIONS, THREE_EXCEPTIONS, f, Cursor(1, 1, 0.0, 1.0)) == Cursor(12, 4, 0.0, -2.0);
  }

  lemma ScoreScatteredBlend()
    ensures Blend(TEXT, THREE_EXCEPTIONS, None, Cursor(12, 4, 0.0, -2.0)) == -13.0 / 80.0
  {
    assert |TEXT| == 4 && |THREE_EXCEPTIONS| == 16 && TEXT[0] == THREE_EXCEPTIONS[0];
    assert -2.0 / (|TEXT| as real) == -1.0 / 2.0;
    assert (|TEXT| as real) / (|THREE_EXCEPTIONS| as real) == 1.0 / 4.0;
  }

  /** `score("text", "three exceptions")` */
  lemma ScoreScattered()
    ensures ScoreOf(Str(TEXT), Str(THREE_EXCEPTIONS), None) == 0.0
  {
    LowerText();
    LowerThreeExceptions();
    ScoreScatteredRun();
    ScoreScatteredBlend();
    assert |TEXT| != |THREE_EXCEPTIONS|;
  }

  /** A match at the beginning beats a match at a word beginning, which beats a
      match inside a word. */
  lemma PositionOrdering()
    ensures ScoreOf(Str(TEST_CAP), Str(TEST_BEGIN_CAP), Some(0.0)) > ScoreOf(Str(TEST_CAP), Str(SECOND_TEST_CAP), Some(0.0))
    ensures ScoreOf(Str(TEST_CAP), Str(SECOND_TEST_CAP), Some(0.0)) > ScoreOf(Str(TEST_CAP), Str(INSIDE_TEST_CAP), Some(0.0))
  {
    ScoreAtBeginning();
    ScoreAtWordBeginning();
    ScoreInsideWord();
  }

  /** A case difference scores lower than the same case. */
  lemma CaseOrdering()
    ensures ScoreOf(Str(TEST_CAP), Str(TESTING_CAP), None) > ScoreOf(Str(TEST_CAP), Str(TESTING), None)
    ensures ScoreOf(Str(TEST), Str(TESTING), None) > ScoreOf(Str(TEST_CAP), Str(TESTING), None)
    ensures ScoreOf(Str(TEST_CAP), Str(TESTING_CAP), None) > ScoreOf(Str(TEST), Str(TESTING_CAP), None)
    ensures ScoreOf(Str(TEST), Str(TESTING), None) > ScoreOf(Str(TEST), Str(TESTING_CAP), None)
  {
    ScoreSameCaseCapital();
    ScoreSameCaseLower();
    ScoreCapitalAgainstLower();
    ScoreLowerAgainstCapital();
  }

  /** A missing, a superfluous and a wrong byte are tolerated (the score stays
      strictly between 0 and 1), while a long series of scattered bytes scores
      below the superfluous byte. */
  lemma MistakesTolerated()
    ensures 0.0 < ScoreOf(Str(TET), Str(TEST), None) < 1.0
    ensures 0.0 < ScoreOf(Str(TESAT), Str(TEST), None) < 1.0
    ensures 0.0 < ScoreOf(Str(TEXT), Str(TEST), None) < 1.0
    ensures ScoreOf(Str(TEXT), Str(THREE_EXCEPTIONS), None) < ScoreOf(Str(TESAT), Str(TEST), None)
  {
    ScoreMissingByte();
    ScoreExtraByte();
    ScoreWrongByte();
    ScoreScattered();
  }
}
