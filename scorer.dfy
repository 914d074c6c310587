/** The relevance scorer of scorer/scorer.rb: how well a short abbreviation matches
    a candidate string, as a number in [0, 1]. All constants are exact rationals, so
    the model computes with `real`. */
module Scorer {
  import opened Common

  const SCORE_WORD_BEGIN: real := 1.5
  const SCORE_MATCH: real := 1.0
  const SCORE_NO_MATCH: real := 0.0
  const PENALTY_CASE: real := 0.5
  const BONUS_BEGIN: real := 0.15

  /** A Ruby argument of `score`: a String (as its bytes) or any other object. */
  datatype Text = Str(bytes: seq<byte>) | NonString(tag: int)

  predicate NonEmptyString(t: Text) { t.Str? && |t.bytes| > 0 }

  /** The other-case byte `next_match` also looks for. */
  function OtherCase(b: byte): (r: Option<byte>)
    ensures r.Some? <==> IsAsciiUpper(b) || IsAsciiLower(b)
    ensures r.Some? ==> r.value != b && LowerByte(r.value) == LowerByte(b)
  {
    if IsAsciiUpper(b) then Some(b + 32)
    else if IsAsciiLower(b) then Some(b - 32)
    else None
  }

  /** `x` is `b` or the other-case letter of `b`. */
  predicate Hit(b: byte, x: byte) { x == b || Some(x) == OtherCase(b) }

  /** Both `Array#index` calls of `next_match` and the `min` of their results:
      the first position from `k` on that holds `b` or its other case. */
  function FirstHit(b: byte, s: seq<byte>, k: nat): (r: Option<nat>)
    requires k <= |s|
    decreases |s| - k
    ensures r.Some? ==> k <= r.value < |s| && Hit(b, s[r.value])
    ensures r.Some? ==> forall m :: k <= m < r.value ==> !Hit(b, s[m])
    ensures r.None? ==> forall m :: k <= m < |s| ==> !Hit(b, s[m])
  {
    if k == |s| then None
    else if Hit(b, s[k]) then Some(k)
    else FirstHit(b, s, k + 1)
  }

  /** `Scorer.next_match(byte, index_in_string, string)`. */
  function NextMatch(b: byte, i: nat, s: seq<byte>): (r: nat)
    ensures r >= i
    ensures i > |s| ==> r == i
    ensures i <= |s| && (exists k :: i <= k < |s| && Hit(b, s[k])) ==>
      r < |s| && Hit(b, s[r]) && forall m :: i <= m < r ==> !Hit(b, s[m])
    ensures i <= |s| && (forall k :: i <= k < |s| ==> !Hit(b, s[k])) ==> r == i
  {
    if i > |s| then i
    else match FirstHit(b, s, i)
      case None => i
      case Some(k) => k
  }

  /** `Scorer.score_char(string, index_in_string, char)`: the byte before the match
      decides between a word beginning and an in-word match (Ruby reads index -1 as
      the last byte), and a case difference halves the score. */
  function ScoreChar(orig: seq<byte>, i: int, c: Option<byte>): (r: real)
  {
    var p := At(orig, i - 1);
    var base := if p == Some(32) || p == Some(9) then SCORE_WORD_BEGIN else SCORE_MATCH;
    if At(orig, i) != c then base * PENALTY_CASE else base
  }

  /** The values `score_char` can take: a byte after a space or tab scores
      1.5 and any other 1.0, halved on a case difference; at position 0 the
      byte "before" is the last byte of the string. */
  lemma ScoreCharRange(orig: seq<byte>, i: int, c: Option<byte>)
    ensures ScoreChar(orig, i, c) in {0.5, 0.75, 1.0, 1.5}
    ensures At(orig, i) == c ==> ScoreChar(orig, i, c) >= 1.0
    ensures At(orig, i) != c ==> ScoreChar(orig, i, c) * 2.0 == ScoreChar(orig, i, At(orig, i))
    ensures 0 < i <= |orig| ==>
      (ScoreChar(orig, i, c) == 1.5 * (if At(orig, i) == c then 1.0 else 0.5) <==> orig[i - 1] == 32 || orig[i - 1] == 9)
    ensures 0 < i <= |orig| && orig[i - 1] != 32 && orig[i - 1] != 9 ==>
      ScoreChar(orig, i, c) == if At(orig, i) == c then 1.0 else 0.5
    ensures |orig| > 0 && i == 0 ==>
      ((ScoreChar(orig, i, c) == 1.5 || ScoreChar(orig, i, c) == 0.75) <==> orig[|orig| - 1] == 32 || orig[|orig| - 1] == 9)
  {
  }

  /** The loop variables of `score`. */
  datatype Cursor = Cursor(inString: int, inAbbrev: int, fuzzies: real, total: real)

  /** One pass of the `while` body of `score` (the match test, the three fuzzy
      repairs, the jump to the next match, and the final increments). */
  function Step(a: seq<byte>, aOrig: seq<byte>, s: seq<byte>, sOrig: seq<byte>,
                fuzziness: Option<real>, c: Cursor): (r: Cursor)
    requires 0 <= c.inAbbrev < |a| && 0 <= c.inString
    ensures r.inAbbrev == c.inAbbrev + 1 || r.inAbbrev == c.inAbbrev + 2
    ensures r.inString >= c.inString + 1
    ensures c.total - 1.0 <= r.total <= c.total + 1.5
    ensures fuzziness.None? ==> r.fuzzies == c.fuzzies && r.inAbbrev == c.inAbbrev + 1
    ensures fuzziness.None? && At(s, c.inString) != Some(a[c.inAbbrev]) ==> r.total == c.total - 1.0
    ensures fuzziness.Some? ==> r.total >= c.total
  {
    var i, j := c.inString, c.inAbbrev;
    if At(s, i) == Some(a[j]) then
      Cursor(i + 1, j + 1, c.fuzzies, c.total + ScoreChar(sOrig, i, At(aOrig, j)))
    else if fuzziness.Some? then
      if At(s, i + 1) == At(a, j + 1) then
        Cursor(i + 2, j + 2, c.fuzzies + 1.0, c.total + ScoreChar(sOrig, i + 1, At(aOrig, j + 1)))
      else if At(s, i) == At(a, j + 1) then
        Cursor(i + 1, j + 2, c.fuzzies + 1.0, c.total + ScoreChar(sOrig, i, At(aOrig, j + 1)))
      else if At(s, i + 1) == Some(a[j]) then
        Cursor(i + 2, j + 1, c.fuzzies + 1.0, c.total + ScoreChar(sOrig, i + 1, At(aOrig, j)))
      else
        Cursor((if i < |s| then NextMatch(a[j], i, s) else i) + 1, j + 1, c.fuzzies + 2.0, c.total)
    else
      Cursor((if i < |s| then NextMatch(a[j], i, s) else i) + 1, j + 1, c.fuzzies, c.total - 1.0)
  }

  /** The whole `while index_in_abbrev < abbreviation_length` loop. */
  function Loop(a: seq<byte>, aOrig: seq<byte>, s: seq<byte>, sOrig: seq<byte>,
                fuzziness: Option<real>, c: Cursor): (r: Cursor)
    requires 0 <= c.inAbbrev && 0 <= c.inString
    decreases |a| - c.inAbbrev
  {
    if c.inAbbrev < |a| then Loop(a, aOrig, s, sOrig, fuzziness, Step(a, aOrig, s, sOrig, fuzziness, c))
    else c
  }

  /** The lines after the loop: average, blend with the length ratio, fuzziness
      penalty and the bonus for equal first bytes (before clamping). */
  function Blend(a: seq<byte>, s: seq<byte>, fuzziness: Option<real>, c: Cursor): real
    requires |a| > 0 && |s| > 0
  {
    var average := c.total / (|a| as real);
    var percentage := (|a| as real) / (|s| as real);
    var blended := (average * percentage + average) / 2.0;
    var penalized := match fuzziness
      case Some(f) => if c.fuzzies == 0.0 then blended else f + (1.0 - f) / c.fuzzies
      case None => blended;
    if s[0] == a[0] then penalized + BONUS_BEGIN else penalized
  }

  function Clamp(x: real): (r: real)
    ensures 0.0 <= r <= 1.0
    ensures 0.0 <= x <= 1.0 ==> r == x
  {
    if x < 0.0 then 0.0 else if x > 1.0 then 1.0 else x
  }

  /** The starting cursor: the jump to the first match of the first byte. */
  function Start(a: seq<byte>, s: seq<byte>): Cursor
    requires |a| > 0
  {
    Cursor(NextMatch(a[0], 0, s), 0, 0.0, 0.0)
  }

  /** Reference definition of `Scorer.score(abbreviation, string, fuzziness)`. */
  function ScoreOf(abbreviation: Text, str: Text, fuzziness: Option<real>): (r: real)
    ensures 0.0 <= r <= 1.0
  {
    if str == abbreviation then 1.0
    else if !NonEmptyString(abbreviation) || !NonEmptyString(str) then 0.0
    else
      var aOrig, sOrig := abbreviation.bytes, str.bytes;
      var a, s := Lower(aOrig), Lower(sOrig);
      Clamp(Blend(a, s, fuzziness, Loop(a, aOrig, s, sOrig, fuzziness, Start(a, s))))
  }

  /** One pass of the `while` body of `score`, updating the loop variables.
      It repeats `Step` as statements so that the loop of `Score` is proved
      one pass at a time. */
  method Advance(a: seq<byte>, aOrig: seq<byte>, s: seq<byte>, sOrig: seq<byte>, fuzziness: Option<real>,
                 inString0: int, inAbbrev0: int, fuzzies0: real, total0: real)
    returns (inString: int, inAbbrev: int, fuzzies: real, total: real)
    requires 0 <= inAbbrev0 < |a| && 0 <= inString0
    ensures Cursor(inString, inAbbrev, fuzzies, total)
         == Step(a, aOrig, s, sOrig, fuzziness, Cursor(inString0, inAbbrev0, fuzzies0, total0))
  {
    inString, inAbbrev, fuzzies, total := inString0, inAbbrev0, fuzzies0, total0;
    if At(s, inString) == Some(a[inAbbrev]) {
      total := total + ScoreChar(sOrig, inString, At(aOrig, inAbbrev));
    } else if fuzziness.Some? {
      if At(s, inString + 1) == At(a, inAbbrev + 1) {
        fuzzies := fuzzies + 1.0;
        inString := inString + 1;
        inAbbrev := inAbbrev + 1;
        total := total + ScoreChar(sOrig, inString, At(aOrig, inAbbrev));
      } else if At(s, inString) == At(a, inAbbrev + 1) {
        fuzzies := fuzzies + 1.0;
        inAbbrev := inAbbrev + 1;
        total := total + ScoreChar(sOrig, inString, At(aOrig, inAbbrev));
      } else if At(s, inString + 1) == Some(a[inAbbrev]) {
        fuzzies := fuzzies + 1.0;
        inString := inString + 1;
        total := total + ScoreChar(sOrig, inString, At(aOrig, inAbbrev));
      } else {
        fuzzies := fuzzies + 2.0;
        if inString < |s| {
          inString := NextMatch(a[inAbbrev], inString, s);
        }
      }
    } else {
      total := total - 1.0;
      if inString < |s| {
        inString := NextMatch(a[inAbbrev], inString, s);
      }
    }
    inString := inString + 1;
    inAbbrev := inAbbrev + 1;
  }

  /** `Scorer.score`, with its loop. */
  method Score(abbreviation: Text, str: Text, fuzziness: Option<real>) returns (r: real)
    ensures r == ScoreOf(abbreviation, str, fuzziness)
    ensures 0.0 <= r <= 1.0
    ensures str == abbreviation ==> r == 1.0
    ensures str != abbreviation && (!NonEmptyString(abbreviation) || !NonEmptyString(str)) ==> r == 0.0
  {
    if str == abbreviation {
      return 1.0;
    }
    if !abbreviation.Str? || |abbreviation.bytes| == 0 || !str.Str? || |str.bytes| == 0 {
      return 0.0;
    }
    var aOrig := abbreviation.bytes;
    var a := Lower(aOrig);
    var sOrig := str.bytes;
    var s := Lower(sOrig);
    var inString: int := 0;
    var inAbbrev: int := 0;
    var fuzzies: real := 0.0;
    var total: real := 0.0;
    inString := NextMatch(a[inAbbrev], inString, s);
    ghost var start := Cursor(inString, inAbbrev, fuzzies, total);
    while inAbbrev < |a|
      invariant 0 <= inString && 0 <= inAbbrev
      invariant Loop(a, aOrig, s, sOrig, fuzziness, Cursor(inString, inAbbrev, fuzzies, total))
             == Loop(a, aOrig, s, sOrig, fuzziness, start)
      decreases |a| - inAbbrev
    {
      inString, inAbbrev, fuzzies, total := Advance(a, aOrig, s, sOrig, fuzziness, inString, inAbbrev, fuzzies, total);
    }
    var final := Blend(a, s, fuzziness, Cursor(inString, inAbbrev, fuzzies, total));
    if final < 0.0 {
      final := 0.0;
    }
    if final > 1.0 {
      final := 1.0;
    }
    r := final;
  }

  /** How many loop passes can still follow (each pass consumes at least one
      abbreviation byte). */
  function Remaining(a: seq<byte>, c: Cursor): nat
  {
    if c.inAbbrev < |a| then |a| - c.inAbbrev else 0
  }

  /** Each pass adds between -1 and 1.5 to `score_total`; without fuzziness a pass
      never touches `fuzzies`, and with fuzziness no pass lowers `score_total`. */
  lemma {:induction false} LoopBounds(a: seq<byte>, aOrig: seq<byte>, s: seq<byte>, sOrig: seq<byte>,
                                      fuzziness: Option<real>, c: Cursor)
    requires 0 <= c.inAbbrev && 0 <= c.inString
    ensures var r := Loop(a, aOrig, s, sOrig, fuzziness, c);
      c.total - Remaining(a, c) as real <= r.total <= c.total + 1.5 * Remaining(a, c) as real
    ensures fuzziness.None? ==> Loop(a, aOrig, s, sOrig, fuzziness, c).fuzzies == c.fuzzies
    ensures fuzziness.Some? ==> Loop(a, aOrig, s, sOrig, fuzziness, c).total >= c.total
    decreases |a| - c.inAbbrev
  {
    if c.inAbbrev < |a| {
      LoopBounds(a, aOrig, s, sOrig, fuzziness, Step(a, aOrig, s, sOrig, fuzziness, c));
    }
  }

  /** When the abbreviation is, byte for byte, the beginning of the string, every
      pass is a hit worth at least `SCORE_MATCH`. */
  lemma {:induction false} PrefixLoop(a: seq<byte>, aOrig: seq<byte>, s: seq<byte>, sOrig: seq<byte>, c: Cursor)
    requires a == Lower(aOrig) && s == Lower(sOrig)
    requires |aOrig| <= |sOrig| && aOrig == sOrig[..|aOrig|]
    requires 0 <= c.inAbbrev <= |a| && c.inString == c.inAbbrev
    ensures Loop(a, aOrig, s, sOrig, None, c).total >= c.total + (|a| - c.inAbbrev) as real
    decreases |a| - c.inAbbrev
  {
    if c.inAbbrev < |a| {
      var j := c.inAbbrev;
      assert sOrig[j] == aOrig[j];
      assert At(s, j) == Some(a[j]);
      assert At(sOrig, j) == At(aOrig, j);
      ScoreCharRange(sOrig, j, At(aOrig, j));
      PrefixLoop(a, aOrig, s, sOrig, Step(a, aOrig, s, sOrig, None, c));
    }
  }

  /** After the loop: an average of at least one per byte and equal first bytes
      give at least 0.5 + `BONUS_BEGIN`. */
  lemma BlendOfHits(a: seq<byte>, s: seq<byte>, c: Cursor)
    requires |a| > 0 && |s| > 0 && s[0] == a[0]
    requires c.total >= |a| as real
    ensures Blend(a, s, None, c) >= 0.65
  {
    var average := c.total / (|a| as real);
    var percentage := (|a| as real) / (|s| as real);
    assert average >= 1.0;
    assert percentage > 0.0;
    assert average * percentage >= percentage by {
      assert (average - 1.0) * percentage >= 0.0;
    }
  }

  /** A match at the absolute beginning: an abbreviation that is a (case-exact)
      prefix of the string scores at least 0.65 without fuzziness. */
  lemma PrefixScoresHigh(aOrig: seq<byte>, sOrig: seq<byte>)
    requires 0 < |aOrig| <= |sOrig| && aOrig == sOrig[..|aOrig|]
    ensures ScoreOf(Str(aOrig), Str(sOrig), None) >= 0.65
  {
    if aOrig != sOrig {
      var a, s := Lower(aOrig), Lower(sOrig);
      assert s[0] == a[0] by { assert sOrig[0] == aOrig[0]; }
      assert Hit(a[0], s[0]);
      assert Start(a, s).inString == 0;
      PrefixLoop(a, aOrig, s, sOrig, Start(a, s));
      BlendOfHits(a, s, Loop(a, aOrig, s, sOrig, None, Start(a, s)));
    }
  }

  /** Without fuzziness, a string with no byte of the abbreviation makes every
      pass a miss worth exactly -1. */
  lemma {:induction false} MissLoop(a: seq<byte>, aOrig: seq<byte>, s: seq<byte>, sOrig: seq<byte>, c: Cursor)
    requires forall j, k :: 0 <= j < |a| && 0 <= k < |s| ==> a[j] != s[k]
    requires 0 <= c.inString && 0 <= c.inAbbrev <= |a|
    ensures Loop(a, aOrig, s, sOrig, None, c).total == c.total - (|a| - c.inAbbrev) as real
    decreases |a| - c.inAbbrev
  {
    if c.inAbbrev < |a| {
      assert At(s, c.inString) != Some(a[c.inAbbrev]);
      MissLoop(a, aOrig, s, sOrig, Step(a, aOrig, s, sOrig, None, c));
    }
  }

  /** A word none of whose letters occur in the string (ignoring case) scores 0.0
      without fuzziness. */
  lemma DisjointScoresZero(aOrig: seq<byte>, sOrig: seq<byte>)
    requires |aOrig| > 0 && |sOrig| > 0
    requires forall j, k :: 0 <= j < |aOrig| && 0 <= k < |sOrig| ==> !SameIgnoringCase(aOrig[j], sOrig[k])
    ensures ScoreOf(Str(aOrig), Str(sOrig), None) == 0.0
  {
    assert aOrig[0] != sOrig[0];
    var a, s := Lower(aOrig), Lower(sOrig);
    MissLoop(a, aOrig, s, sOrig, Start(a, s));
    var c := Loop(a, aOrig, s, sOrig, None, Start(a, s));
    assert c.total == - (|a| as real);
    assert s[0] != a[0];
    assert Blend(a, s, None, c) < 0.0;
  }
}
