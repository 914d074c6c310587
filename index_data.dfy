/** The records of the command index (Index.rb) and the pure parts of a query:
    the id hash, the splitting of the search string, the per-field score sum, the
    treatment of one entry by `find`, and `rank`/`slice`. */
module IndexData {
  import opened Common
  import Scorer

  /** `adler32`'s modulus `m`. */
  const HASH_MODULUS: int := 99999

  /** `MF_ENABLED`, what a validation proc returns for an available command. */
  const MF_ENABLED: real := 0.0

  /** A Ruby value a proc hands back, as far as `execute` and `find` compare it:
      numbers (Integer or Float) by value, and the literals. */
  datatype RValue = RFalse | RTrue | RNil | RNum(n: real) | RObject

  /** The outcome of calling a proc or validation proc: it returns, or it raises. */
  datatype ProcOutcome = Returned(value: RValue) | Raised

  /** The object stored under `:proc` or `:validation_proc`. `isProc` is
      `is_a?(Proc)`; `definedIn` is the file name that `Proc#inspect` shows. */
  datatype Callable = Callable(handle: nat, isProc: bool, definedIn: Option<seq<byte>>)

  /** One entry of `@data`, with the keys `add` gives it. `command` is the
      UI::Command the entry came from (nil for `add(nil, hash)`). */
  datatype Entry = Entry(
    id: int,
    command: Option<nat>,
    name: seq<byte>,
    description: seq<byte>,
    category: Option<seq<byte>>,
    keywords: Option<seq<seq<byte>>>,
    icon: Option<seq<byte>>,
    file: Option<seq<byte>>,
    action: Callable,
    validation: Option<Callable>,
    track: int,
    score: Option<real>,
    enabled: Option<bool>)

  // ---------------------------------------------------------------- hash_code

  /** `String#unpack("c*")`: a byte read as a signed 8-bit integer. */
  function Signed(b: byte): (c: int)
    ensures -128 <= c < 128
    ensures c % 256 == b % 256
  {
    if b >= 128 then b - 256 else b
  }

  /** `hash_code(s)` on a String: `h = (128 * h + c).modulo(99999)` over the signed
      bytes, from the left. */
  function HashOf(s: seq<byte>): int
  {
    if s == [] then 0 else (128 * HashOf(s[..|s| - 1]) + Signed(s[|s| - 1])) % HASH_MODULUS
  }

  /** Every id lies in [0, 99999), whatever the bytes. */
  lemma {:induction false} HashRange(s: seq<byte>)
    ensures 0 <= HashOf(s) < HASH_MODULUS
  {
    if s != [] {
      HashRange(s[..|s| - 1]);
    }
  }

  /** Appending one byte folds it into the previous hash. */
  lemma HashAppend(s: seq<byte>, b: byte)
    ensures HashOf(s + [b]) == (128 * HashOf(s) + Signed(b)) % HASH_MODULUS
  {
    assert (s + [b])[..|s|] == s;
  }

  // ------------------------------------------------------- search string words

  /** `\s` in a Ruby regular expression: space, \t, \n, \v, \f, \r. */
  predicate IsSpace(b: byte) { b == 32 || 9 <= b <= 13 }

  /** The length of the run of non-space bytes at the front of `s`. */
  function RunLength(s: seq<byte>): (n: nat)
    ensures n <= |s|
    ensures forall i :: 0 <= i < n ==> !IsSpace(s[i])
    ensures n < |s| ==> IsSpace(s[n])
  {
    if s == [] || IsSpace(s[0]) then 0 else 1 + RunLength(s[1..])
  }

  /** The maximal runs of non-space bytes, in order. */
  function Words(s: seq<byte>): (ws: seq<seq<byte>>)
    ensures forall k :: 0 <= k < |ws| ==> |ws[k]| > 0
    ensures forall k, i :: 0 <= k < |ws| && 0 <= i < |ws[k]| ==> !IsSpace(ws[k][i])
    decreases |s|
  {
    if s == [] then []
    else if IsSpace(s[0]) then Words(s[1..])
    else
      var n := RunLength(s);
      [s[..n]] + Words(s[n..])
  }

  /** `search_string.split(/\s+/)`: the words, preceded by one empty string when
      the text starts with white space (trailing empty strings are dropped). */
  function Split(s: seq<byte>): (parts: seq<seq<byte>>)
    ensures forall k :: 0 <= k < |parts| && parts[k] != [] ==> parts[k] in Words(s)
    ensures forall w :: w in Words(s) ==> w in parts
  {
    if Words(s) != [] && IsSpace(s[0]) then [[]] + Words(s) else Words(s)
  }

  /** The bytes of `s` that are not white space. */
  function NonSpace(s: seq<byte>): seq<byte>
    decreases |s|
  {
    if s == [] then [] else (if IsSpace(s[0]) then [] else [s[0]]) + NonSpace(s[1..])
  }

  function Flatten(ws: seq<seq<byte>>): seq<byte>
  {
    if ws == [] then [] else ws[0] + Flatten(ws[1..])
  }

  lemma {:induction false} NonSpaceAppend(a: seq<byte>, b: seq<byte>)
    ensures NonSpace(a + b) == NonSpace(a) + NonSpace(b)
    decreases |a|
  {
    if a == [] {
      assert a + b == b;
    } else {
      assert (a + b)[1..] == a[1..] + b;
      NonSpaceAppend(a[1..], b);
    }
  }

  lemma {:induction false} NonSpaceOfRun(s: seq<byte>)
    requires forall i :: 0 <= i < |s| ==> !IsSpace(s[i])
    ensures NonSpace(s) == s
    decreases |s|
  {
    if s != [] {
      NonSpaceOfRun(s[1..]);
    }
  }

  /** Splitting loses nothing but white space: the words, put back together,
      are exactly the non-space bytes of the search string. */
  lemma {:induction false} WordsCoverText(s: seq<byte>)
    ensures Flatten(Words(s)) == NonSpace(s)
    decreases |s|
  {
    if s == [] {
    } else if IsSpace(s[0]) {
      WordsCoverText(s[1..]);
    } else {
      var n := RunLength(s);
      assert s == s[..n] + s[n..];
      NonSpaceAppend(s[..n], s[n..]);
      NonSpaceOfRun(s[..n]);
      WordsCoverText(s[n..]);
      assert [s[..n]] + Words(s[n..]) == Words(s);
      assert ([s[..n]] + Words(s[n..]))[1..] == Words(s[n..]);
    }
  }

  // ------------------------------------------------------------ exact_matches

  /** Bytes with a meaning in a Ruby regular expression. */
  predicate IsRegexMeta(b: byte)
  {
    b in {36, 40, 41, 42, 43, 46, 63, 91, 92, 93, 94, 123, 124, 125}
  }

  predicate IsLiteral(w: seq<byte>) { forall i :: 0 <= i < |w| ==> !IsRegexMeta(w[i]) }

  /** `string.scan(/w/).length` for a literal `w`: non-overlapping occurrences,
      searched from the left. */
  function CountMatches(w: seq<byte>, t: seq<byte>): (n: nat)
    requires |w| > 0
    ensures n * |w| <= |t|
    decreases |t|
  {
    if |t| < |w| then 0
    else if t[..|w|] == w then 1 + CountMatches(w, t[|w|..])
    else CountMatches(w, t[1..])
  }

  predicate OccursAt(w: seq<byte>, t: seq<byte>, i: int)
  {
    0 <= i && i + |w| <= |t| && t[i..i + |w|] == w
  }

  /** A literal word is counted at least once exactly when it occurs. */
  lemma {:induction false} CountMatchesPositive(w: seq<byte>, t: seq<byte>)
    requires |w| > 0
    ensures CountMatches(w, t) > 0 <==> exists i :: OccursAt(w, t, i)
    decreases |t|
  {
    if |t| < |w| {
    } else if t[..|w|] == w {
      assert OccursAt(w, t, 0);
    } else {
      CountMatchesPositive(w, t[1..]);
      if exists i :: OccursAt(w, t, i) {
        var i :| OccursAt(w, t, i);
        assert i != 0;
        assert t[1..][i - 1..i - 1 + |w|] == t[i..i + |w|];
        assert OccursAt(w, t[1..], i - 1);
      }
      if exists i :: OccursAt(w, t[1..], i) {
        var i :| OccursAt(w, t[1..], i);
        assert t[1..][i..i + |w|] == t[i + 1..i + 1 + |w|];
        assert OccursAt(w, t, i + 1);
      }
    }
  }

  /** `exact_matches(w, text)` (a case-insensitive `Regexp`): counted literally for
      words without regex metacharacters, otherwise left to `regex`, which gives
      None when `Regexp.new` or `scan` raises. */
  function ExactMatches(w: seq<byte>, text: seq<byte>, regex: (seq<byte>, seq<byte>) -> Option<nat>): (r: Option<nat>)
    requires |w| > 0
    ensures IsLiteral(w) ==> r.Some?
  {
    if IsLiteral(w) then Some(CountMatches(Lower(w), Lower(text))) else regex(w, text)
  }

  /** For a literal word, `exact_matches` is positive exactly when the word occurs
      in the text, ignoring case. */
  lemma ExactMatchesFindsOccurrence(w: seq<byte>, text: seq<byte>, regex: (seq<byte>, seq<byte>) -> Option<nat>)
    requires |w| > 0 && IsLiteral(w)
    ensures ExactMatches(w, text, regex).value > 0 <==> exists i :: OccursAt(Lower(w), Lower(text), i)
  {
    assert ExactMatches(w, text, regex) == Some(CountMatches(Lower(w), Lower(text)));
    CountMatchesPositive(Lower(w), Lower(text));
  }

  /** `gsub(/\/\\/, "")`: every "/\" pair removed, scanning from the left. */
  function DropSlashBackslash(s: seq<byte>): (r: seq<byte>)
    ensures |r| <= |s|
    decreases |s|
  {
    if |s| >= 2 && s[0] == 47 && s[1] == 92 then DropSlashBackslash(s[2..])
    else if s == [] then []
    else [s[0]] + DropSlashBackslash(s[1..])
  }

  // --------------------------------------------------------------------- find

  function ScoreText(w: seq<byte>, t: seq<byte>): (r: real)
    ensures 0.0 <= r <= 1.0
  {
    Scorer.ScoreOf(Scorer.Str(w), Scorer.Str(t), None)
  }

  /** `n / d.to_f` for a count and a positive divisor. */
  function Ratio(n: nat, d: nat): (r: real)
    requires d >= 1
    ensures 0.0 <= r <= n as real
  {
    (n as real) / (d as real)
  }

  /** The keyword part of the sum: `exact_matches / (keywords.length | 1)` for a
      non-empty keyword list, plus twice the score against the joined list. */
  function KeywordSum(w: seq<byte>, keywords: seq<seq<byte>>, regex: (seq<byte>, seq<byte>) -> Option<nat>): (r: Option<real>)
    requires |w| > 0
    ensures r.Some? ==> r.value >= 0.0
    ensures |keywords| == 0 ==> r == Some(0.0)
  {
    var joined := Join(keywords, [32]);
    var twice := 2.0 * ScoreText(w, joined);
    if |keywords| == 0 then Some(twice)
    else
      var d := OrOne(|keywords|);
      assert d >= 1;
      match ExactMatches(w, joined, regex)
      case None => None
      case Some(n) => Some(Ratio(n, d) + twice)
  }

  /** The sum `s` of `find` for one search word and one entry: name and category
      count twice, description and file once; None when `exact_matches` raises. */
  function FieldSum(w: seq<byte>, e: Entry, regex: (seq<byte>, seq<byte>) -> Option<nat>): (r: Option<real>)
    requires |w| > 0
    ensures r.Some? ==> r.value >= 0.0
    ensures r.None? ==> e.keywords.Some? && |e.keywords.value| > 0
    ensures r.Some? ==> r.value >= 2.0 * ScoreText(w, e.name)
  {
    var base := 2.0 * ScoreText(w, e.name) + ScoreText(w, e.description)
      + (if e.category.Some? then 2.0 * ScoreText(w, e.category.value) else 0.0)
      + (if e.file.Some? then ScoreText(DropSlashBackslash(w), DropSlashBackslash(e.file.value)) else 0.0);
    if e.keywords.None? then Some(base)
    else match KeywordSum(w, e.keywords.value, regex)
      case None => None
      case Some(k) => Some(base + k)
  }

  /** The sum of one search word for one entry, as the word loop of `find`
      sees it (the loop never asks for the empty word). */
  function SumFor(e: Entry, regex: (seq<byte>, seq<byte>) -> Option<nat>): seq<byte> -> Option<real>
  {
    w => if |w| > 0 then FieldSum(w, e, regex) else Some(0.0)
  }

  /** The loop over the search words for one entry, from accumulated `acc`, with
      `sum` giving each word's sum: an empty word is skipped, a word with sum 0.0
      makes the score 0.0 and ends the loop, and None stands for an exception. */
  function ScanWords(words: seq<seq<byte>>, sum: seq<byte> -> Option<real>, acc: real): Option<real>
    decreases |words|
  {
    if words == [] then Some(acc)
    else if words[0] == [] then ScanWords(words[1..], sum, acc)
    else match sum(words[0])
      case None => None
      case Some(s) => if s == 0.0 then Some(0.0) else ScanWords(words[1..], sum, acc + s)
  }

  /** AND semantics: a positive word-loop score means every non-empty word had a
      positive sum. */
  lemma {:induction false} ScanPositiveMeansAllWords(words: seq<seq<byte>>, sum: seq<byte> -> Option<real>, acc: real)
    requires forall k :: 0 <= k < |words| && sum(words[k]).Some? ==> sum(words[k]).value >= 0.0
    requires ScanWords(words, sum, acc).Some? && ScanWords(words, sum, acc).value > 0.0
    ensures forall k :: 0 <= k < |words| && words[k] != [] ==> sum(words[k]).Some? && sum(words[k]).value > 0.0
    decreases |words|
  {
    if words != [] {
      forall k | 0 <= k < |words[1..]| && sum(words[1..][k]).Some?
        ensures sum(words[1..][k]).value >= 0.0
      {
        assert words[1..][k] == words[k + 1];
      }
      if words[0] == [] {
        ScanPositiveMeansAllWords(words[1..], sum, acc);
      } else {
        ScanPositiveMeansAllWords(words[1..], sum, acc + sum(words[0]).value);
      }
      forall k | 0 <= k < |words| && words[k] != []
        ensures sum(words[k]).Some? && sum(words[k]).value > 0.0
      {
        if k > 0 {
          assert words[k] == words[1..][k - 1];
        }
      }
    }
  }

  /** `[10 * track / (@total_track | 1).to_f, 2.0].min`. */
  function Popularity(track: int, totalTrack: int): (r: real)
    ensures r <= 2.0
    ensures track >= 0 && totalTrack >= 0 ==> r >= 0.0
  {
    Min((10 * track) as real / (OrOne(totalTrack) as real), 2.0)
  }

  /** What `find` does with one entry. */
  datatype Visit = Failed | Dropped(entry: Entry) | Kept(entry: Entry)

  /** `entry[:enabled]` after the validation proc ran: true when it returned
      MF_ENABLED, false for another value, nil when it raised. */
  function Status(o: ProcOutcome): Option<bool>
  {
    match o
    case Raised => None
    case Returned(v) => Some(v == RNum(MF_ENABLED))
  }

  /** The body of `@data.each` in `find` for one entry. */
  function VisitEntry(e: Entry, words: seq<seq<byte>>, totalTrack: int,
                      validate: Callable -> ProcOutcome, regex: (seq<byte>, seq<byte>) -> Option<nat>): (v: Visit)
    ensures v.Dropped? || v.Kept? ==>
      v.entry == e.(enabled := v.entry.enabled, score := v.entry.score)
    ensures v.Dropped? ==> v.entry.score == e.score
    ensures v.Kept? ==> v.entry.score.Some? && v.entry.score.value > 1.0 + Popularity(e.track, totalTrack)
    ensures !v.Failed? ==> v.entry.enabled == EnabledAfter(e, validate)
    ensures e.validation.None? && !v.Failed? ==> v.entry.enabled == e.enabled
  {
    Settled(e, ScanWords(words, SumFor(e, regex), 0.0), totalTrack, validate)
  }

  /** `entry[:enabled]` once the validation proc, if any, has run. */
  function EnabledAfter(e: Entry, validate: Callable -> ProcOutcome): Option<bool>
  {
    if e.validation.Some? then Status(validate(e.validation.value)) else e.enabled
  }

  /** The relevance tweaks on the word-loop score: the icon triples it, a
      validation that answers `false` halves it. */
  function Adjusted(e: Entry, sc: real, validate: Callable -> ProcOutcome): (r: real)
    ensures e.icon.None? && EnabledAfter(e, validate) != Some(false) ==> r == sc
    ensures e.validation.None? ==> r == if e.icon.Some? then 3.0 * sc else sc
    ensures sc >= 0.0 ==> 0.5 * sc <= r <= 3.0 * sc
  {
    var s1 := if e.icon.Some? then 3.0 * sc else sc;
    if e.validation.Some? && Status(validate(e.validation.value)) == Some(false) then 0.5 * s1 else s1
  }

  /** The rest of the body once the words are scanned: a failed scan fails;
      an adjusted score of at most 1 drops the entry, and a kept entry gets
      its popularity added. */
  function Settled(e: Entry, scanned: Option<real>, totalTrack: int, validate: Callable -> ProcOutcome): (v: Visit)
    ensures v.Failed? <==> scanned.None?
    ensures scanned.Some? ==> (v.Kept? <==> Adjusted(e, scanned.value, validate) > 1.0)
    ensures v.Kept? ==> v.entry.score == Some(Adjusted(e, scanned.value, validate) + Popularity(e.track, totalTrack))
    ensures v.Kept? ==> v.entry.score.value > 1.0 + Popularity(v.entry.track, totalTrack)
    ensures v.Dropped? || v.Kept? ==>
      v.entry == e.(enabled := v.entry.enabled, score := v.entry.score)
    ensures v.Dropped? ==> v.entry.score == e.score
    ensures !v.Failed? ==> v.entry.enabled == EnabledAfter(e, validate)
    ensures e.validation.None? && !v.Failed? ==> v.entry.enabled == e.enabled
  {
    match scanned
    case None => Failed
    case Some(sc) =>
      var adjusted := Adjusted(e, sc, validate);
      var e1 := e.(enabled := EnabledAfter(e, validate));
      if adjusted <= 1.0 then Dropped(e1)
      else Kept(e1.(score := Some(adjusted + Popularity(e1.track, totalTrack))))
  }

  /** A kept entry matched every non-empty search word. */
  lemma KeptMatchesAllWords(e: Entry, words: seq<seq<byte>>, totalTrack: int,
                            validate: Callable -> ProcOutcome, regex: (seq<byte>, seq<byte>) -> Option<nat>)
    ensures VisitEntry(e, words, totalTrack, validate, regex).Kept? ==>
      forall k :: 0 <= k < |words| && words[k] != [] ==>
        FieldSum(words[k], e, regex).Some? && FieldSum(words[k], e, regex).value > 0.0
  {
    if VisitEntry(e, words, totalTrack, validate, regex).Kept? {
      ScanPositiveMeansAllWords(words, SumFor(e, regex), 0.0);
    }
  }

  /** What `find` leaves behind: the entries of `@data` (with `:enabled` and
      `:score` updated) and the result array. */
  datatype Found = Found(data: seq<Entry>, results: seq<Entry>)

  /** What `find` would do with each entry on its own. */
  function Visits(data: seq<Entry>, words: seq<seq<byte>>, totalTrack: int,
                  validate: Callable -> ProcOutcome, regex: (seq<byte>, seq<byte>) -> Option<nat>): (vs: seq<Visit>)
    ensures |vs| == |data|
    ensures forall k :: 0 <= k < |data| ==> vs[k] == VisitEntry(data[k], words, totalTrack, validate, regex)
  {
    seq(|data|, k requires 0 <= k < |data| => VisitEntry(data[k], words, totalTrack, validate, regex))
  }

  /** The loop of `find` over the entries and what each visit gives; the scan
      stops (`break`) at an entry that raised, leaving it and all later entries
      untouched. */
  function FindFrom(data: seq<Entry>, visits: seq<Visit>): (f: Found)
    requires |visits| == |data|
    ensures |f.data| == |data|
    ensures |f.results| <= |data|
    decreases |data|
  {
    if data == [] then Found([], [])
    else
      match visits[0]
      case Failed => Found(data, [])
      case Dropped(e) =>
        var rest := FindFrom(data[1..], visits[1..]);
        Found([e] + rest.data, rest.results)
      case Kept(e) =>
        var rest := FindFrom(data[1..], visits[1..]);
        Found([e] + rest.data, [e] + rest.results)
  }

  /** `find(search_string)` on `@data`, given `@total_track` and the oracles. */
  function FindSpec(data: seq<Entry>, search: seq<byte>, totalTrack: int,
                    validate: Callable -> ProcOutcome, regex: (seq<byte>, seq<byte>) -> Option<nat>): (f: Found)
    ensures |f.data| == |data| && |f.results| <= |data|
  {
    FindFrom(data, Visits(data, Split(search), totalTrack, validate, regex))
  }

  /** The result `r` is the updated entry at position k, whose visit kept it. */
  predicate KeptEntry(visits: seq<Visit>, newData: seq<Entry>, r: Entry, k: int)
  {
    0 <= k < |visits| && k < |newData| && newData[k] == r && visits[k] == Kept(r)
  }

  ghost predicate KeptAt(visits: seq<Visit>, newData: seq<Entry>, r: Entry)
  {
    exists k :: KeptEntry(visits, newData, r, k)
  }

  /** Every result is the updated entry at a position whose visit kept it. */
  lemma {:induction false} FindResultsKept(data: seq<Entry>, visits: seq<Visit>)
    requires |visits| == |data|
    ensures forall r :: r in FindFrom(data, visits).results ==> KeptAt(visits, FindFrom(data, visits).data, r)
    decreases |data|
  {
    if data != [] {
      var f := FindFrom(data, visits);
      var rest := FindFrom(data[1..], visits[1..]);
      FindResultsKept(data[1..], visits[1..]);
      assert forall r :: r in rest.results ==> KeptAt(visits[1..], rest.data, r);
      forall r | r in f.results
        ensures KeptAt(visits, f.data, r)
      {
        match visits[0]
        case Failed =>
        case Dropped(e) =>
          assert f == Found([e] + rest.data, rest.results);
          assert KeptAt(visits[1..], rest.data, r);
          var k :| KeptEntry(visits[1..], rest.data, r, k);
          assert KeptEntry(visits, f.data, r, k + 1);
        case Kept(e) =>
          assert f == Found([e] + rest.data, [e] + rest.results);
          if r == e {
            assert KeptEntry(visits, f.data, r, 0);
          } else {
            assert r in rest.results;
            assert KeptAt(visits[1..], rest.data, r);
          var k :| KeptEntry(visits[1..], rest.data, r, k);
            assert KeptEntry(visits, f.data, r, k + 1);
          }
      }
    }
  }

  /** Every result of `find` cleared the threshold: its stored score is more
      than 1 plus its popularity. */
  lemma FindScoresAboveOne(data: seq<Entry>, search: seq<byte>, totalTrack: int,
                           validate: Callable -> ProcOutcome, regex: (seq<byte>, seq<byte>) -> Option<nat>, r: Entry)
    requires r in FindSpec(data, search, totalTrack, validate, regex).results
    ensures r.score.Some? && r.score.value > 1.0 + Popularity(r.track, totalTrack)
  {
    var visits := Visits(data, Split(search), totalTrack, validate, regex);
    assert FindSpec(data, search, totalTrack, validate, regex) == FindFrom(data, visits);
    FindResultsKept(data, visits);
    var k :| KeptEntry(visits, FindFrom(data, visits).data, r, k);
    assert VisitEntry(data[k], Split(search), totalTrack, validate, regex) == Kept(r);
  }

  /** The entry has a positive sum for every word of the search string. */
  predicate MatchesAllWords(e: Entry, search: seq<byte>, regex: (seq<byte>, seq<byte>) -> Option<nat>)
  {
    forall w :: w in Words(search) ==> FieldSum(w, e, regex).Some? && FieldSum(w, e, regex).value > 0.0
  }

  /** AND semantics of `find`: every result comes from an entry that matched each
      non-empty search word with a positive sum. */
  lemma FindMatchesAllWords(data: seq<Entry>, search: seq<byte>, totalTrack: int,
                            validate: Callable -> ProcOutcome, regex: (seq<byte>, seq<byte>) -> Option<nat>, r: Entry)
    requires r in FindSpec(data, search, totalTrack, validate, regex).results
    ensures exists k :: 0 <= k < |data| && FindSpec(data, search, totalTrack, validate, regex).data[k] == r &&
                        MatchesAllWords(data[k], search, regex)
  {
    var words := Split(search);
    var visits := Visits(data, words, totalTrack, validate, regex);
    assert FindSpec(data, search, totalTrack, validate, regex) == FindFrom(data, visits);
    FindResultsKept(data, visits);
    var k :| KeptEntry(visits, FindFrom(data, visits).data, r, k);
    KeptMatchesAllWords(data[k], words, totalTrack, validate, regex);
    forall w | w in Words(search)
      ensures FieldSum(w, data[k], regex).Some? && FieldSum(w, data[k], regex).value > 0.0
    {
      var j :| 0 <= j < |words| && words[j] == w;
    }
  }

  /** The `break`: when the entry at position k raises, the entries from k on are
      left as they were and none of them is a result. */
  lemma {:induction false} FindStopsAtFailure(data: seq<Entry>, visits: seq<Visit>, k: nat)
    requires |visits| == |data| && k < |data| && visits[k].Failed?
    ensures var f := FindFrom(data, visits);
      f.data[k..] == data[k..] && |f.results| <= k
    decreases k
  {
    if k > 0 && !visits[0].Failed? {
      assert visits[1..][k - 1] == visits[k];
      FindStopsAtFailure(data[1..], visits[1..], k - 1);
      var f := FindFrom(data, visits);
      var rest := FindFrom(data[1..], visits[1..]);
      assert f.data[k..] == rest.data[k - 1..];
      assert data[k..] == data[1..][k - 1..];
    }
  }

  // --------------------------------------------------------------- rank/slice

  /** The `sort_by` key of `rank`: the negated score, plus 10 for a disabled
      entry. */
  function RankKey(e: Entry): real
  {
    (if e.score.Some? then -e.score.value else 0.0) + (if e.enabled == Some(false) then 10.0 else 0.0)
  }

  predicate SortedByKey(s: seq<Entry>)
  {
    forall i, j :: 0 <= i < j < |s| ==> RankKey(s[i]) <= RankKey(s[j])
  }

  /** Insert `e` in front of the first entry with a larger key. */
  function Insert(e: Entry, s: seq<Entry>): (r: seq<Entry>)
    requires SortedByKey(s)
    ensures multiset(r) == multiset(s) + multiset{e}
    ensures |r| == |s| + 1
    ensures r[0] == e || (|s| > 0 && r[0] == s[0])
    ensures SortedByKey(r)
  {
    if s == [] then [e]
    else if RankKey(e) <= RankKey(s[0]) then [e] + s
    else
      assert s == [s[0]] + s[1..];
      var tail := Insert(e, s[1..]);
      assert RankKey(s[0]) <= RankKey(tail[0]);
      [s[0]] + tail
  }

  /** `rank(results)`: the results in ascending key order (highest score first,
      disabled entries after enabled ones of similar score). */
  function Rank(s: seq<Entry>): (r: seq<Entry>)
    ensures SortedByKey(r)
    ensures multiset(r) == multiset(s)
    ensures |r| == |s|
  {
    if s == [] then []
    else
      assert s == [s[0]] + s[1..];
      Insert(s[0], Rank(s[1..]))
  }

  /** `results[0...n]` (a negative n counts from the end). */
  function Slice<T>(s: seq<T>, n: int): (r: seq<T>)
    ensures |r| <= |s| && r == s[..|r|]
    ensures n >= 0 ==> |r| == MinInt(n, |s|)
    ensures n < 0 ==> |r| == MaxInt(|s| + n, 0)
  {
    if n >= |s| then s
    else if n >= 0 then s[..n]
    else if |s| + n >= 0 then s[..|s| + n]
    else []
  }
}
