/** What `look_up` returns for a one-word search over plain entries whose names
    either are that word or share no letter with it. */
module IndexLookUp {
  import opened Common
  import opened IndexData
  import Scorer

  /** An entry as `add(nil, {:name, :proc})` leaves it: no icon, category,
      keywords, file or validation proc. */
  predicate Plain(e: Entry)
  {
    e.icon.None? && e.category.None? && e.keywords.None? && e.file.None? && e.validation.None?
  }

  /** A non-empty search text without white space. */
  predicate IsWord(w: seq<byte>)
  {
    |w| > 0 && forall i :: 0 <= i < |w| ==> !IsSpace(w[i])
  }

  /** No byte of `name` is a byte of `w`, up to ASCII case. */
  predicate Unrelated(w: seq<byte>, name: seq<byte>)
  {
    forall j, k :: 0 <= j < |w| && 0 <= k < |name| ==> !SameIgnoringCase(w[j], name[k])
  }

  /** Every entry is plain, and named `w` or unrelated to it. */
  predicate NamedOrUnrelated(data: seq<Entry>, w: seq<byte>)
  {
    forall k :: 0 <= k < |data| ==> Plain(data[k]) && (data[k].name == w || Unrelated(w, data[k].name))
  }

  /** The number of entries named `w`. */
  function CountNamed(data: seq<Entry>, w: seq<byte>): nat
  {
    if data == [] then 0 else (if data[0].name == w then 1 else 0) + CountNamed(data[1..], w)
  }

  /** The number of visits that keep their entry. */
  function CountKept(visits: seq<Visit>): nat
  {
    if visits == [] then 0 else (if visits[0].Kept? then 1 else 0) + CountKept(visits[1..])
  }

  lemma {:induction false} RunLengthOfWord(w: seq<byte>)
    requires forall i :: 0 <= i < |w| ==> !IsSpace(w[i])
    ensures RunLength(w) == |w|
    decreases |w|
  {
    if w != [] {
      RunLengthOfWord(w[1..]);
    }
  }

  /** `w.split(/\s+/)` of a word is the word alone. */
  lemma SplitWord(w: seq<byte>)
    requires IsWord(w)
    ensures Split(w) == [w]
  {
    RunLengthOfWord(w);
    assert w[..|w|] == w && w[|w|..] == [];
    assert Words(w) == [w] + Words([]);
  }

  /** An entry named like the search word scores at least 2 and is kept. */
  lemma VisitNamedEntry(e: Entry, w: seq<byte>, totalTrack: int,
                        validate: Callable -> ProcOutcome, regex: (seq<byte>, seq<byte>) -> Option<nat>)
    requires Plain(e) && IsWord(w) && e.name == w
    ensures VisitEntry(e, [w], totalTrack, validate, regex).Kept?
  {
    assert ScoreText(w, e.name) == 1.0;
    var s := FieldSum(w, e, regex).value;
    assert s >= 2.0;
    assert ScanWords([w], SumFor(e, regex), 0.0) == ScanWords([], SumFor(e, regex), s) by {
      assert [w][1..] == [];
    }
  }

  /** An entry whose name shares no letter with the search word gets at most
      the description's score, which is at most 1, and is dropped. */
  lemma VisitUnrelatedEntry(e: Entry, w: seq<byte>, totalTrack: int,
                            validate: Callable -> ProcOutcome, regex: (seq<byte>, seq<byte>) -> Option<nat>)
    requires Plain(e) && IsWord(w) && Unrelated(w, e.name)
    ensures VisitEntry(e, [w], totalTrack, validate, regex).Dropped?
  {
    if e.name != [] {
      Scorer.DisjointScoresZero(w, e.name);
    }
    var d := ScoreText(w, e.description);
    assert FieldSum(w, e, regex) == Some(d) by {
      assert ScoreText(w, e.name) == 0.0;
    }
    assert ScanWords([w], SumFor(e, regex), 0.0) == Some(d) by {
      assert [w][1..] == [];
    }
  }

  /** Without a failed visit, `find` returns one result per kept entry. */
  lemma {:induction false} ResultsCountKept(data: seq<Entry>, visits: seq<Visit>)
    requires |visits| == |data|
    requires forall k :: 0 <= k < |visits| ==> !visits[k].Failed?
    ensures |FindFrom(data, visits).results| == CountKept(visits)
    decreases |data|
  {
    if data != [] {
      ResultsCountKept(data[1..], visits[1..]);
    }
  }

  /** Each entry named `w` is kept and every other one dropped. */
  lemma {:induction false} KeptAreNamed(data: seq<Entry>, w: seq<byte>, totalTrack: int,
                                        validate: Callable -> ProcOutcome, regex: (seq<byte>, seq<byte>) -> Option<nat>)
    requires IsWord(w) && NamedOrUnrelated(data, w)
    ensures var visits := Visits(data, [w], totalTrack, validate, regex);
      CountKept(visits) == CountNamed(data, w) && forall k :: 0 <= k < |visits| ==> !visits[k].Failed?
    decreases |data|
  {
    if data != [] {
      var visits := Visits(data, [w], totalTrack, validate, regex);
      assert visits[1..] == Visits(data[1..], [w], totalTrack, validate, regex);
      KeptAreNamed(data[1..], w, totalTrack, validate, regex);
      if data[0].name == w {
        VisitNamedEntry(data[0], w, totalTrack, validate, regex);
      } else {
        VisitUnrelatedEntry(data[0], w, totalTrack, validate, regex);
      }
      forall k | 0 <= k < |visits|
        ensures !visits[k].Failed?
      {
        if data[k].name == w {
          VisitNamedEntry(data[k], w, totalTrack, validate, regex);
        } else {
          VisitUnrelatedEntry(data[k], w, totalTrack, validate, regex);
        }
      }
    }
  }

  /** `look_up(w, n)` with n >= 0 returns min(n, m) entries, where m entries
      carry the name `w`: all of them when n >= m, never more than n. */
  lemma LookUpCountsExactNames(data: seq<Entry>, w: seq<byte>, n: int, totalTrack: int,
                               validate: Callable -> ProcOutcome, regex: (seq<byte>, seq<byte>) -> Option<nat>)
    requires IsWord(w) && NamedOrUnrelated(data, w) && n >= 0
    ensures |Slice(Rank(FindSpec(data, w, totalTrack, validate, regex).results), n)| == MinInt(n, CountNamed(data, w))
  {
    SplitWord(w);
    var visits := Visits(data, [w], totalTrack, validate, regex);
    KeptAreNamed(data, w, totalTrack, validate, regex);
    ResultsCountKept(data, visits);
  }
}
