/** The dialog's own `Index` (the search used when the index lives in the
    page): `find` scores every entry against the words of the search string,
    `rank` sorts the results by score, highest first, and `slice` keeps the
    first `Options.max_length || 10`. */
module LegacyIndex {
  import opened Common
  import Style
  import IndexData

  /** `slice`'s length when `Options.max_length` is unset. */
  const DEFAULT_LENGTH: int := 10

  /** An entry as `find` reads it; an empty string stands for a missing
      (falsy) name, description or file. */
  datatype LegacyEntry = LegacyEntry(
    id: int,
    name: string,
    description: string,
    keywords: Option<seq<string>>,
    file: string,
    score: real)

  // ------------------------------------------------------------ find

  /** `split(/\s/)`: the pieces between single white-space characters, empty
      pieces included. */
  function SplitWhite(s: string): (r: seq<string>)
    ensures |r| >= 1
    ensures forall i, k :: 0 <= i < |r| && 0 <= k < |r[i]| ==> !Style.IsWhite(r[i][k])
  {
    if s == [] then [[]]
    else
      var rest := SplitWhite(s[1..]);
      if Style.IsWhite(s[0]) then [[]] + rest
      else
        assert forall k :: 0 < k < |[s[0]] + rest[0]| ==> ([s[0]] + rest[0])[k] == rest[0][k - 1];
        [[s[0]] + rest[0]] + rest[1..]
  }

  /** Characters with a meaning in a JavaScript regular expression. */
  predicate IsRegexMeta(c: char)
  {
    c in "$()*+.?[\\]^{|}"
  }

  /** A word that `new RegExp` reads as itself. */
  predicate IsLiteral(w: string)
  {
    forall k :: 0 <= k < |w| ==> !IsRegexMeta(w[k])
  }

  /** `name.match(new RegExp("^" + w))` succeeds for a literal w: a
      case-sensitive prefix. */
  predicate StartsWith(name: string, w: string)
  {
    |w| <= |name| && name[..|w|] == w
  }

  /** w matches t at position i, ignoring case. */
  predicate FoldedAt(w: string, t: string, i: int)
  {
    0 <= i <= |t| - |w| && Style.SameFolded(t[i..i + |w|], w)
  }

  /** `new RegExp(w, "i")` matches somewhere in t, for a literal w. */
  predicate ContainsFolded(w: string, t: string)
  {
    exists i | 0 <= i <= |t| - |w| :: FoldedAt(w, t, i)
  }

  /** `(text.match(new RegExp(pattern, flags)) || []).length` for a pattern
      that is not literal, as the engine computes it: None when `new RegExp`
      throws a SyntaxError, otherwise the length of the match array (0 for no
      match, one more per capture group for a match). `ignoreCase` is the
      `"i"` flag. */
  type Matcher = (string, bool, string) -> Option<nat>

  /** The single-character case of `find`: `(name.match(new RegExp("^" + w))
      || []).length`. */
  function NameStart(w: string, name: string, regex: Matcher): (r: Option<real>)
    ensures IsLiteral(w) ==> r == Some(if StartsWith(name, w) then 1.0 else 0.0)
    ensures !IsLiteral(w) ==> (r.None? <==> regex("^" + w, false, name).None?)
  {
    if IsLiteral(w) then Some(if StartsWith(name, w) then 1.0 else 0.0)
    else match regex("^" + w, false, name)
      case None => None
      case Some(n) => Some(n as real)
  }

  /** `exact_matches(w, t)`: the length of the array `match` returns without
      the `g` flag, so for a literal word 1 for a match and 0 otherwise
      (however many there are); None when the pattern throws. */
  function ExactMatches(w: string, t: string, regex: Matcher): (r: Option<real>)
    ensures IsLiteral(w) ==> r.Some? && (r.value == 0.0 || r.value == 1.0)
    ensures IsLiteral(w) ==> (r == Some(1.0) <==> ContainsFolded(w, t))
    ensures !IsLiteral(w) ==> (r.None? <==> regex(w, true, t).None?)
  {
    if IsLiteral(w) then Some(if ContainsFolded(w, t) then 1.0 else 0.0)
    else match regex(w, true, t)
      case None => None
      case Some(n) => Some(n as real)
  }

  /** The name term `2 * (1 - rlevenshtein(w, name)) *
      longest_common_substr_length(w, name)^2` for a word and a name: a score,
      or None when one of the regular expressions that
      `longest_common_substr_length` builds from pieces of the word throws
      (the piece `\` of the word `\(` gives the pattern `(\)`). */
  type NameScorer = (string, string) -> Option<real>

  /** The sum of two terms, unless computing either threw. */
  function Plus(x: Option<real>, y: Option<real>): Option<real>
  {
    if x.Some? && y.Some? then Some(x.value + y.value) else None
  }

  /** Twice a term, unless computing it threw. */
  function Twice(x: Option<real>): Option<real>
  {
    if x.Some? then Some(2.0 * x.value) else None
  }

  /** What one search word adds to an entry's score, or None when a regular
      expression built from it throws. A one-character word only counts as
      the beginning of a name; `nameScore` stands for the name term. */
  function WordScore(w: string, e: LegacyEntry, nameScore: NameScorer, regex: Matcher): Option<real>
  {
    if w == [] then Some(0.0)
    else if |w| == 1 && e.name != [] then NameStart(w, e.name, regex)
    else
      Plus(Plus(Plus(
        if e.name != [] then Plus(nameScore(w, e.name), ExactMatches(w, e.name, regex)) else Some(0.0),
        if e.description != [] then Twice(ExactMatches(w, e.description, regex)) else Some(0.0)),
        if e.keywords.Some? then ExactMatches(w, Join(e.keywords.value, " "), regex) else Some(0.0)),
        if e.file != [] then ExactMatches(w, e.file, regex) else Some(0.0))
  }

  /** The score of an entry: the sum over the words, in order, or None when
      one of them throws. */
  function Score(words: seq<string>, e: LegacyEntry, nameScore: NameScorer, regex: Matcher): Option<real>
  {
    if words == [] then Some(0.0)
    else Plus(Score(words[..|words| - 1], e, nameScore, regex), WordScore(words[|words| - 1], e, nameScore, regex))
  }

  /** The entry scorer `find` uses for a search: `Score` with the search's
      words and the engine. The functions below take any entry scorer. */
  function ScoreFor(words: seq<string>, nameScore: NameScorer, regex: Matcher): LegacyEntry -> Option<real>
  {
    e => Score(words, e, nameScore, regex)
  }

  /** Whether `find` keeps an entry (`score <= 0.5` skips it). */
  predicate Kept(scoreOf: LegacyEntry -> Option<real>, e: LegacyEntry)
  {
    scoreOf(e).Some? && scoreOf(e).value > 0.5
  }

  /** The entry as `find` leaves it: a kept entry carries its new score. */
  function Rescore(scoreOf: LegacyEntry -> Option<real>, e: LegacyEntry): (r: LegacyEntry)
    ensures r == e.(score := r.score)
    ensures Kept(scoreOf, e) ==> r.score == scoreOf(e).value
  {
    if Kept(scoreOf, e) then e.(score := scoreOf(e).value) else e
  }

  /** The position of the first entry whose scoring throws, or the length of
      the data when none does. */
  function FirstThrowing(data: seq<LegacyEntry>, scoreOf: LegacyEntry -> Option<real>): (k: nat)
    ensures k <= |data|
    ensures forall j :: 0 <= j < k ==> scoreOf(data[j]).Some?
    ensures k < |data| ==> scoreOf(data[k]).None?
  {
    if data == [] then 0
    else if scoreOf(data[0]).None? then 0
    else 1 + FirstThrowing(data[1..], scoreOf)
  }

  /** The kept entries with their new score, in the order of the data. */
  function Found(data: seq<LegacyEntry>, scoreOf: LegacyEntry -> Option<real>): seq<LegacyEntry>
  {
    if data == [] then []
    else
      var e := data[|data| - 1];
      Found(data[..|data| - 1], scoreOf) + (if Kept(scoreOf, e) then [Rescore(scoreOf, e)] else [])
  }

  /** One more entry of the data adds that entry to the found ones when it is
      kept, and nothing otherwise. */
  lemma FoundStep(data: seq<LegacyEntry>, scoreOf: LegacyEntry -> Option<real>, i: nat)
    requires i < |data|
    ensures Found(data[..i + 1], scoreOf)
         == Found(data[..i], scoreOf) + (if Kept(scoreOf, data[i]) then [Rescore(scoreOf, data[i])] else [])
  {
    assert data[..i + 1][..i] == data[..i];
  }

  /** The result of `find`: nothing catches a SyntaxError, so it escapes
      when any entry's scoring throws. */
  function FindSpec(data: seq<LegacyEntry>, scoreOf: LegacyEntry -> Option<real>): Outcome<seq<LegacyEntry>>
  {
    if FirstThrowing(data, scoreOf) < |data| then Raises(SyntaxError)
    else Ok(Found(data, scoreOf))
  }

  /** The data after `find`: the entries before the one that threw (all of
      them when none did) are rescored, the others are as they were. */
  function Rescored(data: seq<LegacyEntry>, scoreOf: LegacyEntry -> Option<real>): seq<LegacyEntry>
  {
    var k := FirstThrowing(data, scoreOf);
    seq(|data|, i requires 0 <= i < |data| => if i < k then Rescore(scoreOf, data[i]) else data[i])
  }

  // ------------------------------------------------------------ rank

  predicate SortedByScore(s: seq<LegacyEntry>)
  {
    forall p, q :: 0 <= p < q < |s| ==> s[p].score >= s[q].score
  }

  /** `rank`: `Array.prototype.sort` with a comparator that puts the higher
      score first. The order of equal scores is left to the engine. */
  method Rank(a: array<LegacyEntry>)
    modifies a
    ensures SortedByScore(a[..])
    ensures multiset(a[..]) == multiset(old(a[..]))
  {
    var i := 0;
    while i < a.Length
      invariant 0 <= i <= a.Length
      invariant forall p, q :: 0 <= p < q < i ==> a[p].score >= a[q].score
      invariant multiset(a[..]) == multiset(old(a[..]))
    {
      Sink(a, i);
      i := i + 1;
    }
  }

  /** One pass of the sort: the element at i moves down past every element
      of the sorted prefix that scores lower. */
  method Sink(a: array<LegacyEntry>, i: int)
    requires 0 <= i < a.Length
    requires forall p, q :: 0 <= p < q < i ==> a[p].score >= a[q].score
    modifies a
    ensures forall p, q :: 0 <= p < q <= i ==> a[p].score >= a[q].score
    ensures multiset(a[..]) == multiset(old(a[..]))
  {
    var j := i;
    while j > 0 && a[j - 1].score < a[j].score
      invariant 0 <= j <= i
      invariant forall p, q :: 0 <= p < q <= i && p != j && q != j ==> a[p].score >= a[q].score
      invariant forall q :: j < q <= i ==> a[j].score >= a[q].score
      invariant forall p, q :: 0 <= p < j < q <= i ==> a[p].score >= a[q].score
      invariant multiset(a[..]) == multiset(old(a[..]))
    {
      Swap(a, j - 1, j);
      j := j - 1;
    }
  }

  /** Exchange two elements of the array. */
  method Swap(a: array<LegacyEntry>, p: int, q: int)
    requires 0 <= p < q < a.Length
    modifies a
    ensures a[..] == old(a[..])[p := old(a[q])][q := old(a[p])]
    ensures multiset(a[..]) == multiset(old(a[..]))
  {
    a[p], a[q] := a[q], a[p];
  }

  /** `Options.max_length || 10`. */
  function SliceLength(maxLength: int): (n: int)
    ensures maxLength == 0 ==> n == DEFAULT_LENGTH
    ensures maxLength != 0 ==> n == maxLength
  {
    if maxLength == 0 then DEFAULT_LENGTH else maxLength
  }

  class LegacyIndex {
    var data: seq<LegacyEntry>

    /** `load(array)`. */
    method Load(list: seq<LegacyEntry>)
      modifies this
      ensures data == list
    {
      data := list;
    }

    /** `find(search_string)`: every entry gets the sum of its word scores;
        entries above 0.5 get it as their `score` and are returned. */
    method Find(search: string, nameScore: NameScorer, regex: Matcher)
      returns (r: Outcome<seq<LegacyEntry>>)
      modifies this
      ensures r == FindSpec(old(data), ScoreFor(SplitWhite(search), nameScore, regex))
      ensures data == Rescored(old(data), ScoreFor(SplitWhite(search), nameScore, regex))
    {
      var entries;
      r, entries := FindBy(data, ScoreFor(SplitWhite(search), nameScore, regex));
      data := entries;
    }

    /** `look_up(search_string)`: the `max_length || 10` best results of
        `find`, highest score first; a SyntaxError of `find` escapes. */
    method LookUp(search: string, nameScore: NameScorer, regex: Matcher, maxLength: int)
      returns (r: Outcome<seq<LegacyEntry>>)
      modifies this
      ensures data == Rescored(old(data), ScoreFor(SplitWhite(search), nameScore, regex))
      ensures r.Raises? <==> FindSpec(old(data), ScoreFor(SplitWhite(search), nameScore, regex)).Raises?
      ensures r.Raises? ==> r.error == SyntaxError
      ensures r.Ok? ==> var found := FindSpec(old(data), ScoreFor(SplitWhite(search), nameScore, regex)).value;
        SortedByScore(r.value) && multiset(r.value) <= multiset(found)
        && |r.value| == |IndexData.Slice(found, SliceLength(maxLength))|
        && forall x, y :: x in multiset(found) - multiset(r.value) && y in r.value ==> y.score >= x.score
    {
      var found := Find(search, nameScore, regex);
      if found.Raises? {
        return found;
      }
      var a := new LegacyEntry[|found.value|](k requires 0 <= k < |found.value| => found.value[k]);
      assert a[..] == found.value;
      Rank(a);
      var top := IndexData.Slice(a[..], SliceLength(maxLength));
      TopOfSorted(a[..], |top|);
      return Ok(top);
    }
  }

  /** The inner loop of `find`: the word scores of one entry, added up in
      the order of the words; a word whose regular expression throws ends
      the loop. */
  method ScoreEntry(words: seq<string>, e: LegacyEntry, nameScore: NameScorer, regex: Matcher)
    returns (score: Option<real>)
    ensures score == Score(words, e, nameScore, regex)
  {
    var sum := 0.0;
    var j := 0;
    while j < |words|
      invariant 0 <= j <= |words|
      invariant Score(words[..j], e, nameScore, regex) == Some(sum)
    {
      assert words[..j + 1][..j] == words[..j];
      var w := WordScore(words[j], e, nameScore, regex);
      if w.None? {
        ThrowEndsScore(words, e, nameScore, regex, j + 1);
        return None;
      }
      sum := sum + w.value;
      j := j + 1;
    }
    assert words[..|words|] == words;
    return Some(sum);
  }

  /** The data `find` leaves when it stops at position i: the first i
      entries rescored and the rest as they were. */
  lemma RescoredFromParts(data: seq<LegacyEntry>, newData: seq<LegacyEntry>, scoreOf: LegacyEntry -> Option<real>, i: nat)
    requires i <= |data| == |newData|
    requires forall j :: 0 <= j < i ==> scoreOf(data[j]).Some?
    requires i < |data| ==> scoreOf(data[i]).None?
    requires forall j :: 0 <= j < i ==> newData[j] == Rescore(scoreOf, data[j])
    requires forall j :: i <= j < |data| ==> newData[j] == data[j]
    ensures FirstThrowing(data, scoreOf) == i
    ensures newData == Rescored(data, scoreOf)
  {
  }

  /** The loop of `find` over the entries, for any scoring of one entry; an
      entry is scored by the word loop `ScoreEntry`, whose result is `Score`.
      It returns the outcome and the entries with their new scores. */
  method FindBy(start: seq<LegacyEntry>, scoreOf: LegacyEntry -> Option<real>)
    returns (r: Outcome<seq<LegacyEntry>>, entries: seq<LegacyEntry>)
    ensures r == FindSpec(start, scoreOf)
    ensures entries == Rescored(start, scoreOf)
  {
    entries := start;
    var results := [];
    var i := 0;
    while i < |entries|
      invariant 0 <= i <= |entries| == |start|
      invariant results == Found(start[..i], scoreOf)
      invariant forall j :: 0 <= j < i ==> scoreOf(start[j]).Some?
      invariant forall j :: 0 <= j < i ==> entries[j] == Rescore(scoreOf, start[j])
      invariant forall j :: i <= j < |entries| ==> entries[j] == start[j]
    {
      var e := entries[i];
      var score := scoreOf(e);
      if score.None? {
        RescoredFromParts(start, entries, scoreOf, i);
        return Raises(SyntaxError), entries;
      }
      FoundStep(start, scoreOf, i);
      if score.value > 0.5 {
        entries := entries[i := e.(score := score.value)];
        results := results + [e.(score := score.value)];
      }
      i := i + 1;
    }
    assert start[..|start|] == start;
    RescoredFromParts(start, entries, scoreOf, i);
    r := Ok(results);
  }

  /** Once a prefix of the words throws, the whole score throws. */
  lemma {:induction false} ThrowEndsScore(words: seq<string>, e: LegacyEntry, nameScore: NameScorer, regex: Matcher, j: nat)
    requires j <= |words| && Score(words[..j], e, nameScore, regex).None?
    ensures Score(words, e, nameScore, regex).None?
    decreases |words| - j
  {
    if j < |words| {
      assert words[..j + 1][..j] == words[..j];
      ThrowEndsScore(words, e, nameScore, regex, j + 1);
    } else {
      assert words[..j] == words;
    }
  }

  /** When the name term throws for a word of two or more characters against
      an entry with a name, `find` throws: the SyntaxError of
      `longest_common_substr_length` escapes like that of `exact_matches`. */
  lemma NameTermThrowEscapes(data: seq<LegacyEntry>, words: seq<string>, nameScore: NameScorer, regex: Matcher, k: nat, j: nat)
    requires k < |data| && j < |words|
    requires |words[j]| >= 2 && data[k].name != []
    requires nameScore(words[j], data[k].name).None?
    ensures FindSpec(data, ScoreFor(words, nameScore, regex)) == Raises(SyntaxError)
  {
    var e := data[k];
    assert WordScore(words[j], e, nameScore, regex).None?;
    assert words[..j + 1][..j] == words[..j] && words[..j + 1][j] == words[j];
    ThrowEndsScore(words, e, nameScore, regex, j + 1);
    assert ScoreFor(words, nameScore, regex)(data[k]).None?;
  }

  /** A prefix of a sorted list is sorted, and no element left out scores
      higher than one kept. */
  lemma TopOfSorted(s: seq<LegacyEntry>, m: nat)
    requires m <= |s| && SortedByScore(s)
    ensures SortedByScore(s[..m])
    ensures multiset(s[..m]) <= multiset(s)
    ensures forall x, y :: x in multiset(s) - multiset(s[..m]) && y in s[..m] ==> y.score >= x.score
  {
    assert s == s[..m] + s[m..];
    forall x, y | x in multiset(s) - multiset(s[..m]) && y in s[..m]
      ensures y.score >= x.score
    {
      LeftOutScoresLower(s, m, x, y);
    }
  }

  lemma LeftOutScoresLower(s: seq<LegacyEntry>, m: nat, x: LegacyEntry, y: LegacyEntry)
    requires m <= |s| && SortedByScore(s)
    requires x in s[m..] && y in s[..m]
    ensures y.score >= x.score
  {
    var p :| 0 <= p < m && s[..m][p] == y;
    var q :| 0 <= q < |s| - m && s[m..][q] == x;
    assert s[p] == y && s[m + q] == x;
  }

  /** When nothing throws, `find` returns exactly the entries scoring above
      0.5, with their new score, in the order of the data. */
  lemma {:induction false} FindKeepsExactlyKept(data: seq<LegacyEntry>, scoreOf: LegacyEntry -> Option<real>)
    ensures forall r :: r in Found(data, scoreOf) ==>
      r.score > 0.5 && exists k :: 0 <= k < |data| && Kept(scoreOf, data[k]) && r == Rescore(scoreOf, data[k])
    ensures forall k :: 0 <= k < |data| && Kept(scoreOf, data[k]) ==> Rescore(scoreOf, data[k]) in Found(data, scoreOf)
    ensures |Found(data, scoreOf)| <= |data|
  {
    if data != [] {
      var init := data[..|data| - 1];
      FindKeepsExactlyKept(init, scoreOf);
      forall k | 0 <= k < |init|
        ensures init[k] == data[k]
      {
      }
    }
  }

  /** `find` throws exactly when scoring some entry throws; then the entries
      from the first such one on are left as they were. */
  lemma FindThrowsAtFirstThrowing(data: seq<LegacyEntry>, scoreOf: LegacyEntry -> Option<real>)
    ensures FindSpec(data, scoreOf).Raises? <==> exists k :: 0 <= k < |data| && scoreOf(data[k]).None?
    ensures forall k :: FirstThrowing(data, scoreOf) <= k < |data| ==> Rescored(data, scoreOf)[k] == data[k]
    ensures FindSpec(data, scoreOf).Ok? ==>
      (Rescored(data, scoreOf) == seq(|data|, i requires 0 <= i < |data| => Rescore(scoreOf, data[i])))
  {
  }

  /** A search string of white space only finds nothing. */
  lemma BlankSearchFindsNothing(data: seq<LegacyEntry>, words: seq<string>, nameScore: NameScorer, regex: Matcher)
    requires forall i :: 0 <= i < |words| ==> words[i] == []
    ensures FindSpec(data, ScoreFor(words, nameScore, regex)) == Ok([])
  {
    var scoreOf := ScoreFor(words, nameScore, regex);
    forall k | 0 <= k < |data|
      ensures scoreOf(data[k]) == Some(0.0)
    {
      BlankScoresZero(words, data[k], nameScore, regex);
    }
    BlankFindsNone(data, scoreOf);
  }

  /** Entries that all score 0 are all skipped. */
  lemma {:induction false} BlankFindsNone(data: seq<LegacyEntry>, scoreOf: LegacyEntry -> Option<real>)
    requires forall k :: 0 <= k < |data| ==> scoreOf(data[k]) == Some(0.0)
    ensures Found(data, scoreOf) == []
  {
    if data != [] {
      BlankFindsNone(data[..|data| - 1], scoreOf);
    }
  }

  lemma {:induction false} BlankScoresZero(words: seq<string>, e: LegacyEntry, nameScore: NameScorer, regex: Matcher)
    requires forall i :: 0 <= i < |words| ==> words[i] == []
    ensures Score(words, e, nameScore, regex) == Some(0.0)
  {
    if words != [] {
      BlankScoresZero(words[..|words| - 1], e, nameScore, regex);
    }
  }

  /** A one-character word scores only at the start of a name, whatever the
      other fields hold: a literal character scores 1 exactly when it starts
      the name, case-sensitively, and a metacharacter is left to the engine
      (`"."` matches any start, `"*"` throws). */
  lemma SingleCharacterMatchesNameStart(c: char, e: LegacyEntry, nameScore: NameScorer, regex: Matcher)
    requires e.name != []
    ensures !IsRegexMeta(c) ==> Score([[c]], e, nameScore, regex) == Some(if e.name[0] == c then 1.0 else 0.0)
    ensures IsRegexMeta(c) ==> (Score([[c]], e, nameScore, regex) ==
      if regex(['^', c], false, e.name).Some? then Some(regex(['^', c], false, e.name).value as real) else None)
  {
    assert [[c]][..0] == [];
    assert e.name[..1] == [e.name[0]];
    assert "^" + [c] == ['^', c];
  }
}
