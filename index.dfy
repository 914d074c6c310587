/** The command index of Index.rb: the list `@data` of entries, the usage counter
    `@total_track`, and the operations that add, update, look up, execute and
    rank entries. */
module CommandIndex {
  import opened Common
  import opened IndexData
  import Scorer

  /** The `:file` value a caller passes for code from `eval`. */
  const EVAL_FILE: seq<byte> := [40, 101, 118, 97, 108, 41]  // "(eval)"

  /** The `length` of `look_up` when none is given. */
  const DEFAULT_LENGTH: int := 10

  /** The first argument of `add`: nil or another object (the UI::Command path is
      not part of this model). */
  datatype CommandArg = NoCommand | NotACommand

  /** The metadata hash a caller passes to `add`. `category` tells the absent key
      (None) from a key present with a value, since `merge!` copies present keys
      only. */
  datatype Registration = Registration(
    action: Option<Callable>,
    validation: Option<Callable>,
    name: Option<seq<byte>>,
    description: Option<seq<byte>>,
    icon: Option<seq<byte>>,
    category: Option<Option<seq<byte>>>,
    file: Option<seq<byte>>)

  /** The second argument of `add`: a Hash or another object. */
  datatype HashArg = AHash(reg: Registration) | NotAHash

  /** What `add` gives back: true after appending or merging, the `@@missing` list
      for an incomplete entry, or an ArgumentError. */
  datatype AddOutcome = Added | Merged | Incomplete | AddRejected

  /** An id argument: a Fixnum or any other object. */
  datatype IdArg = FixnumId(id: int) | NotFixnum

  /** The `length` argument of `look_up`. */
  datatype LengthArg = DefaultLength | IntLength(n: int) | NotInteger

  // ------------------------------------------------------------------ add/update

  /** The entry `add(nil, hash)` builds from a complete hash, or None when the
      proc or the name is missing. The id is the hash of name + description,
      whatever id the caller gave, and the usage count starts at 0. */
  function Prepared(reg: Registration, defaultDescription: seq<byte>): (r: Option<Entry>)
    ensures r.None? <==> reg.action.None? || reg.name.None?
    ensures r.Some? ==> r.value.id == HashOf(r.value.name + r.value.description)
    ensures r.Some? ==> r.value.name == reg.name.value && r.value.track == 0 && r.value.command.None?
    ensures r.Some? ==> r.value.description == (if reg.description.Some? then reg.description.value else defaultDescription)
    ensures r.Some? && reg.file == Some(EVAL_FILE) ==> r.value.file.None?
  {
    if reg.action.None? || reg.name.None? then None
    else
      var description := if reg.description.Some? then reg.description.value else defaultDescription;
      Some(Entry(
        id := HashOf(reg.name.value + description),
        command := None,
        name := reg.name.value,
        description := description,
        category := if reg.category.Some? then reg.category.value else None,
        keywords := None,
        icon := reg.icon,
        file := if reg.file == Some(EVAL_FILE) then None else reg.action.value.definedIn,
        action := reg.action.value,
        validation := reg.validation,
        track := 0,
        score := None,
        enabled := None))
  }

  /** `prior.merge!(incoming)` for a hash built by `add`: every key of the incoming hash wins;
      `:score` and `:enabled` are not among them, and `:category` only when the
      caller gave one. */
  function Merge(prior: Entry, incoming: Entry, categoryGiven: bool): (r: Entry)
    ensures r.id == incoming.id && r.name == incoming.name && r.description == incoming.description
    ensures r.track == incoming.track && r.action == incoming.action && r.validation == incoming.validation
    ensures r.score == prior.score && r.enabled == prior.enabled
    ensures r.category == (if categoryGiven then incoming.category else prior.category)
  {
    incoming.(score := prior.score, enabled := prior.enabled, category := if categoryGiven then incoming.category else prior.category)
  }

  /** Of two updates with the same hash keys the later one wins, so updating
      with the same hash twice is updating once; `:score` and `:enabled` keep
      their values through any number of updates. */
  lemma MergeLastWins(prior: Entry, first: Entry, second: Entry, categoryGiven: bool)
    ensures Merge(Merge(prior, first, categoryGiven), second, categoryGiven) == Merge(prior, second, categoryGiven)
    ensures Merge(Merge(prior, first, categoryGiven), first, categoryGiven) == Merge(prior, first, categoryGiven)
    ensures Merge(Merge(prior, first, categoryGiven), second, categoryGiven).score == prior.score
    ensures Merge(Merge(prior, first, categoryGiven), second, categoryGiven).enabled == prior.enabled
  {
  }

  /** The test of `update`: the same id, or the same command (nil equals nil). */
  predicate MatchesEntry(e: Entry, h: Entry)
  {
    e.id == h.id || e.command == h.command
  }

  /** The position `update` picks: the last one that matches. */
  function LastMatch(data: seq<Entry>, h: Entry): (r: Option<nat>)
    ensures r.Some? ==> r.value < |data| && MatchesEntry(data[r.value], h)
    ensures r.Some? ==> forall j :: r.value < j < |data| ==> !MatchesEntry(data[j], h)
    ensures r.None? ==> forall j :: 0 <= j < |data| ==> !MatchesEntry(data[j], h)
  {
    if data == [] then None
    else if MatchesEntry(data[|data| - 1], h) then Some(|data| - 1)
    else LastMatch(data[..|data| - 1], h)
  }

  /** `@data` after `update(h)`. */
  function UpdatedData(data: seq<Entry>, h: Entry, categoryGiven: bool): (r: seq<Entry>)
    ensures |r| == |data|
  {
    match LastMatch(data, h)
    case None => data
    case Some(k) => data[k := Merge(data[k], h, categoryGiven)]
  }

  /** On the `add(nil, hash)` path every command is nil, so `update` merges into
      the last entry, whatever its id. */
  lemma UpdateMergesIntoLast(data: seq<Entry>, h: Entry)
    requires data != [] && h.command.None?
    requires forall j :: 0 <= j < |data| ==> data[j].command.None?
    ensures LastMatch(data, h) == Some(|data| - 1)
  {
  }

  /** The first position holding `id`. */
  function FirstWithId(data: seq<Entry>, id: int): (r: Option<nat>)
    ensures r.Some? ==> r.value < |data| && data[r.value].id == id
    ensures r.Some? ==> forall j :: 0 <= j < r.value ==> data[j].id != id
    ensures r.None? ==> forall j :: 0 <= j < |data| ==> data[j].id != id
  {
    if data == [] then None
    else if data[0].id == id then Some(0)
    else match FirstWithId(data[1..], id)
      case None => None
      case Some(k) => Some(k + 1)
  }

  /** `@data` after `add(command, hash)`. */
  function AddedData(data: seq<Entry>, command: CommandArg, hash: HashArg, defaultDescription: seq<byte>): seq<Entry>
  {
    if command.NotACommand? || hash.NotAHash? then data
    else match Prepared(hash.reg, defaultDescription)
      case None => data
      case Some(e) =>
        if FirstWithId(data, e.id).Some? then UpdatedData(data, e, hash.reg.category.Some?)
        else data + [e]
  }

  /** Entries carry the id of their name and description. */
  predicate IdsFollowNames(data: seq<Entry>)
  {
    forall j :: 0 <= j < |data| ==> data[j].id == HashOf(data[j].name + data[j].description)
  }

  predicate NilCommands(data: seq<Entry>)
  {
    forall j :: 0 <= j < |data| ==> data[j].command.None?
  }

  /** `add` keeps ids tied to names and leaves every command nil. */
  lemma AddKeepsInvariants(data: seq<Entry>, command: CommandArg, hash: HashArg, defaultDescription: seq<byte>)
    requires IdsFollowNames(data) && NilCommands(data)
    ensures IdsFollowNames(AddedData(data, command, hash, defaultDescription))
    ensures NilCommands(AddedData(data, command, hash, defaultDescription))
  {
  }

  /** `add` grows `@data` by one exactly when the new id is not there yet;
      otherwise the length stays and the last entry takes the new values. */
  lemma AddGrowsOnlyForNewIds(data: seq<Entry>, reg: Registration, defaultDescription: seq<byte>)
    requires NilCommands(data)
    requires Prepared(reg, defaultDescription).Some?
    ensures var e := Prepared(reg, defaultDescription).value;
      var d := AddedData(data, NoCommand, AHash(reg), defaultDescription);
      (FirstWithId(data, e.id).None? ==> d == data + [e]) &&
      (FirstWithId(data, e.id).Some? ==> |d| == |data| && d[..|data| - 1] == data[..|data| - 1] &&
                                         d[|data| - 1] == Merge(data[|data| - 1], e, reg.category.Some?))
  {
    var e := Prepared(reg, defaultDescription).value;
    if FirstWithId(data, e.id).Some? {
      UpdateMergesIntoLast(data, e);
    }
  }

  /** `add(nil, hash)` for a complete hash, unfolded. */
  lemma AddComplete(data: seq<Entry>, reg: Registration, defaultDescription: seq<byte>, e: Entry)
    requires Prepared(reg, defaultDescription) == Some(e)
    ensures FirstWithId(data, e.id).None? ==> AddedData(data, NoCommand, AHash(reg), defaultDescription) == data + [e]
    ensures FirstWithId(data, e.id).Some? ==>
      AddedData(data, NoCommand, AHash(reg), defaultDescription) == UpdatedData(data, e, reg.category.Some?)
  {
  }

  /** The `nil == nil` quirk: adding A, then B, then A again merges the second A
      into B's slot, so A's id ends up twice and B's is lost. */
  lemma AddAgainOverwritesLast(regA: Registration, regB: Registration, defaultDescription: seq<byte>, a: Entry, b: Entry)
    requires Prepared(regA, defaultDescription) == Some(a) && Prepared(regB, defaultDescription) == Some(b)
    requires a.id != b.id
    ensures var d1 := AddedData([], NoCommand, AHash(regA), defaultDescription);
      var d2 := AddedData(d1, NoCommand, AHash(regB), defaultDescription);
      AddedData(d2, NoCommand, AHash(regA), defaultDescription) == [a, Merge(b, a, regA.category.Some?)]
  {
    AddComplete([], regA, defaultDescription, a);
    AddComplete([a], regB, defaultDescription, b);
    assert FirstWithId([a], b.id).None?;
    AddComplete([a, b], regA, defaultDescription, a);
    assert FirstWithId([a, b], a.id) == Some(0);
    UpdateMergesIntoLast([a, b], a);
  }

  // ------------------------------------------------------------------- execute

  /** The state after `execute`. */
  datatype Executed = Executed(success: bool, data: seq<Entry>, totalTrack: int)

  /** How `execute` reads a proc's return value: false and 1 mean failure. */
  predicate Succeeded(v: RValue) { v != RFalse && v != RNum(1.0) }

  /** `execute(id)`, corrected: an id that is not a Fixnum or not in the index
      gives false. A found proc that returns counts one use on the entry and on
      `@total_track`; one that raises gives false and counts nothing. */
  function ExecuteSpec(data: seq<Entry>, totalTrack: int, id: IdArg, call: ProcOutcome): (r: Executed)
    ensures |r.data| == |data|
  {
    if id.NotFixnum? then Executed(false, data, totalTrack)
    else match FirstWithId(data, id.id)
      case None => Executed(false, data, totalTrack)
      case Some(k) =>
        if !data[k].action.isProc then Executed(false, data, totalTrack)
        else match call
          case Raised => Executed(false, data, totalTrack)
          case Returned(v) =>
            Executed(Succeeded(v), data[k := data[k].(track := data[k].track + 1)], totalTrack + 1)
  }

  /** What `execute` does as written: when no entry is found (or the id is not a
      Fixnum) the rescue clause reads `entry[:name]` on nil, and that
      NoMethodError escapes. */
  function ExecuteAsWritten(data: seq<Entry>, id: IdArg, call: ProcOutcome): (r: Outcome<bool>)
    ensures r.Raises? ==> r.error == NoMethodError
  {
    if id.NotFixnum? then Raises(NoMethodError)
    else match FirstWithId(data, id.id)
      case None => Raises(NoMethodError)
      case Some(k) =>
        if !data[k].action.isProc then Ok(false)
        else match call
          case Raised => Ok(false)
          case Returned(v) => Ok(Succeeded(v))
  }

  /** The discrepancy: on an id that is not in the index, `execute` as written
      raises, while the corrected one returns false and changes nothing. */
  lemma ExecuteUnknownIdRaises(data: seq<Entry>, totalTrack: int, id: int, call: ProcOutcome)
    requires forall j :: 0 <= j < |data| ==> data[j].id != id
    ensures ExecuteAsWritten(data, FixnumId(id), call) == Raises(NoMethodError)
    ensures ExecuteSpec(data, totalTrack, FixnumId(id), call) == Executed(false, data, totalTrack)
  {
  }

  /** Wherever the entry exists, the corrected `execute` answers as the written
      one does. */
  lemma ExecuteAgreesWhenFound(data: seq<Entry>, totalTrack: int, id: int, call: ProcOutcome)
    requires exists j :: 0 <= j < |data| && data[j].id == id
    ensures ExecuteAsWritten(data, FixnumId(id), call) == Ok(ExecuteSpec(data, totalTrack, FixnumId(id), call).success)
  {
  }

  /** Usage counting: a proc that returns (even false) counts one use on its
      entry and on the total; anything else changes no counter. */
  lemma ExecuteCounts(data: seq<Entry>, totalTrack: int, id: int, call: ProcOutcome, k: nat)
    requires FirstWithId(data, id) == Some(k)
    ensures var r := ExecuteSpec(data, totalTrack, FixnumId(id), call);
      if data[k].action.isProc && call.Returned? then
        r.totalTrack == totalTrack + 1 && r.data[k].track == data[k].track + 1 &&
        r.success == Succeeded(call.value) &&
        forall j :: 0 <= j < |data| && j != k ==> r.data[j] == data[j]
      else
        r == Executed(false, data, totalTrack)
  {
  }

  // -------------------------------------------------------------- load_tracking

  /** The entry after `load_tracking(tracking)`. */
  function Tracked(e: Entry, tracking: map<int, int>): (r: Entry)
    ensures r == e.(track := r.track)
    ensures e.id in tracking ==> r.track == e.track + tracking[e.id]
    ensures e.id !in tracking ==> r == e
  {
    if e.id in tracking then e.(track := e.track + tracking[e.id]) else e
  }

  /** What `load_tracking` adds to `@total_track` for these entries. */
  function TrackGain(data: seq<Entry>, tracking: map<int, int>): int
  {
    if data == [] then 0
    else
      var last := data[|data| - 1];
      TrackGain(data[..|data| - 1], tracking) + (if last.id in tracking then tracking[last.id] else 0)
  }

  /** The sum of the entries' usage counts. */
  function TrackTotal(data: seq<Entry>): int
  {
    if data == [] then 0 else TrackTotal(data[..|data| - 1]) + data[|data| - 1].track
  }

  function TrackedData(data: seq<Entry>, tracking: map<int, int>): (r: seq<Entry>)
    ensures |r| == |data| && forall j :: 0 <= j < |data| ==> r[j] == Tracked(data[j], tracking)
  {
    seq(|data|, j requires 0 <= j < |data| => Tracked(data[j], tracking))
  }

  /** `load_tracking` adds to `@total_track` exactly what it adds to the entries. */
  lemma {:induction false} TrackingBalances(data: seq<Entry>, tracking: map<int, int>)
    ensures TrackTotal(TrackedData(data, tracking)) == TrackTotal(data) + TrackGain(data, tracking)
    decreases |data|
  {
    if data != [] {
      var n := |data| - 1;
      assert TrackedData(data, tracking)[..n] == TrackedData(data[..n], tracking);
      TrackingBalances(data[..n], tracking);
    }
  }

  // ----------------------------------------------------------------- the class

  /** The `Index` singleton. `missing` counts the entries `add` refused (the
      `@@missing` list, whose elements are all nil on this path);
      `defaultDescription` is the translated text `add` uses when no description
      is given. */
  class Index {
    var data: seq<Entry>
    var totalTrack: int
    var missing: nat
    const defaultDescription: seq<byte>

    /** A new, empty index (the scan of existing commands is not modelled). */
    constructor(defaultDescription: seq<byte>)
      ensures data == [] && totalTrack == 0 && missing == 0
      ensures this.defaultDescription == defaultDescription
    {
      data := [];
      totalTrack := 0;
      missing := 0;
      this.defaultDescription := defaultDescription;
    }

    /** The first position holding `id` (the block of `@data.find`). */
    method IndexOfId(id: int) returns (r: Option<nat>)
      ensures r == FirstWithId(data, id)
    {
      var i := 0;
      while i < |data|
        invariant 0 <= i <= |data|
        invariant forall j :: 0 <= j < i ==> data[j].id != id
      {
        if data[i].id == id {
          return Some(i);
        }
        i := i + 1;
      }
      return None;
    }

    /** `update(h)`: merge into the last entry with the same id or command. */
    method Update(h: Entry, categoryGiven: bool) returns (found: bool)
      modifies this
      ensures found == LastMatch(old(data), h).Some?
      ensures data == UpdatedData(old(data), h, categoryGiven)
      ensures totalTrack == old(totalTrack) && missing == old(missing)
    {
      var ind: Option<nat> := None;
      var i := 0;
      while i < |data|
        invariant 0 <= i <= |data|
        invariant ind == LastMatch(data[..i], h)
      {
        assert data[..i + 1][..i] == data[..i];
        if MatchesEntry(data[i], h) {
          ind := Some(i);
        }
        i := i + 1;
      }
      assert data[..i] == data;
      if ind.None? {
        return false;
      }
      data := data[ind.value := Merge(data[ind.value], h, categoryGiven)];
      return true;
    }

    /** `add(command, hash)`. */
    method Add(command: CommandArg, hash: HashArg) returns (r: AddOutcome)
      modifies this
      ensures data == AddedData(old(data), command, hash, defaultDescription)
      ensures r == AddRejected <==> command.NotACommand? || hash.NotAHash?
      ensures r == Incomplete <==> r != AddRejected && Prepared(hash.reg, defaultDescription).None?
      ensures missing == old(missing) + (if r == Incomplete then 1 else 0)
      ensures r == Added ==> |data| == |old(data)| + 1
      ensures r == Merged ==> |data| == |old(data)|
      ensures totalTrack == old(totalTrack)
    {
      if command.NotACommand? || hash.NotAHash? {
        return AddRejected;
      }
      var reg := hash.reg;
      if reg.action.None? || reg.name.None? {
        missing := missing + 1;
        return Incomplete;
      }
      var description := if reg.description.Some? then reg.description.value else defaultDescription;
      var id := HashCode(reg.name.value + description);
      var e := Prepared(reg, defaultDescription).value;
      assert e.id == id;
      var existing := IndexOfId(id);
      if existing.Some? {
        var _ := Update(e, reg.category.Some?);
        r := Merged;
      } else {
        data := data + [e];
        r := Added;
      }
    }

    /** `get_by_id(id)`: the first entry with that id, or nil. */
    method GetById(id: IdArg) returns (r: Outcome<Option<Entry>>)
      ensures id.NotFixnum? ==> r == Raises(ArgumentError)
      ensures id.FixnumId? ==> r.Ok?
      ensures id.FixnumId? && FirstWithId(data, id.id).None? ==> r == Ok(None)
      ensures id.FixnumId? && FirstWithId(data, id.id).Some? ==> r == Ok(Some(data[FirstWithId(data, id.id).value]))
    {
      if id.NotFixnum? {
        return Raises(ArgumentError);
      }
      var k := IndexOfId(id.id);
      if k.None? {
        return Ok(None);
      }
      return Ok(Some(data[k.value]));
    }

    /** `execute(id)`, with the outcome of the proc call as `call` (corrected for
        ids that are not in the index). */
    method Execute(id: IdArg, call: ProcOutcome) returns (success: bool)
      modifies this
      ensures Executed(success, data, totalTrack) == ExecuteSpec(old(data), old(totalTrack), id, call)
      ensures missing == old(missing)
    {
      if id.NotFixnum? {
        return false;
      }
      var k := IndexOfId(id.id);
      if k.None? || !data[k.value].action.isProc {
        return false;
      }
      match call
      case Raised =>
        success := false;
      case Returned(v) =>
        success := v != RFalse && v != RNum(1.0);
        var i := k.value;
        data := data[i := data[i].(track := data[i].track + 1)];
        totalTrack := totalTrack + 1;
    }

    /** `load_tracking(tracking)`: add each known id's count to its entry and to
        the total. */
    method LoadTracking(tracking: map<int, int>)
      modifies this
      ensures data == TrackedData(old(data), tracking)
      ensures totalTrack == old(totalTrack) + TrackGain(old(data), tracking)
      ensures missing == old(missing)
    {
      ghost var data0 := data;
      var i := 0;
      while i < |data|
        invariant 0 <= i <= |data| == |data0|
        invariant forall j :: 0 <= j < i ==> data[j] == Tracked(data0[j], tracking)
        invariant forall j :: i <= j < |data| ==> data[j] == data0[j]
        invariant totalTrack == old(totalTrack) + TrackGain(data0[..i], tracking)
        invariant missing == old(missing)
      {
        assert data0[..i + 1][..i] == data0[..i];
        var e := data[i];
        if e.id in tracking {
          var track := tracking[e.id];
          data := data[i := e.(track := e.track + track)];
          totalTrack := totalTrack + track;
        }
        i := i + 1;
      }
      assert data0[..i] == data0;
    }

    /** `find(search)`: score every entry, record `:enabled` and `:score` on it,
        and collect those above 1.0; `validate` and `regex` stand for the
        validation procs and `exact_matches` on regex words. */
    method Find(search: seq<byte>, validate: Callable -> ProcOutcome, regex: (seq<byte>, seq<byte>) -> Option<nat>)
      returns (results: seq<Entry>)
      modifies this
      ensures Found(data, results) == FindSpec(old(data), search, old(totalTrack), validate, regex)
      ensures totalTrack == old(totalTrack) && missing == old(missing)
    {
      var words := Split(search);
      var entries;
      entries, results := ScanEntries(data, words, totalTrack, validate, regex);
      data := entries;
    }

    /** `look_up(search, length)`: `slice(rank(find(search)), length)`. */
    method LookUp(search: Scorer.Text, length: LengthArg,
                  validate: Callable -> ProcOutcome, regex: (seq<byte>, seq<byte>) -> Option<nat>)
      returns (r: Outcome<seq<Entry>>)
      modifies this
      ensures search.NonString? || length.NotInteger? ==> r == Raises(ArgumentError) && data == old(data)
      ensures search.Str? && !length.NotInteger? ==>
        var f := FindSpec(old(data), search.bytes, old(totalTrack), validate, regex);
        data == f.data && r == Ok(Slice(Rank(f.results), if length.IntLength? then length.n else DEFAULT_LENGTH))
      ensures totalTrack == old(totalTrack) && missing == old(missing)
    {
      if search.NonString? {
        return Raises(ArgumentError);
      }
      var n := DEFAULT_LENGTH;
      if length.NotInteger? {
        return Raises(ArgumentError);
      } else if length.IntLength? {
        n := length.n;
      }
      var found := Find(search.bytes, validate, regex);
      return Ok(Slice(Rank(found), n));
    }
  }

  // ------------------------------------------------------- helpers of the class

  /** The loop over `@data` of `find`: each entry is visited in order and
      replaced by its updated hash, and the loop stops at the first entry whose
      scoring raised. The updated hashes are collected in `visited`. */
  method ScanEntries(data: seq<Entry>, words: seq<seq<byte>>, total: int,
                     validate: Callable -> ProcOutcome, regex: (seq<byte>, seq<byte>) -> Option<nat>)
    returns (entries: seq<Entry>, results: seq<Entry>)
    ensures Found(entries, results) == FindFrom(data, Visits(data, words, total, validate, regex))
  {
    ghost var visits := Visits(data, words, total, validate, regex);
    var visited: seq<Entry> := [];
    results := [];
    var i := 0;
    while i < |data|
      invariant 0 <= i <= |data| == |visits| && |visited| == i
      invariant Resumed(visited, results, data, visits, i) == FindFrom(data, visits)
    {
      var v := VisitOf(data[i], words, total, validate, regex);
      if v.Failed? {
        FindResumesAtFailure(visited, results, data, visits, i);
        return visited + data[i..], results;
      }
      var kept := if v.Kept? then [v.entry] else [];
      FindResumesAfter(visited, results, data, visits, i, v.entry, kept);
      visited := visited + [v.entry];
      results := results + kept;
      i := i + 1;
    }
    FindResumesAtEnd(visited, results, data, visits);
    return visited, results;
  }

  /** The outcome of `find` from position i on, after the entries before i
      became `prefix` and the results so far are `results`. */
  function Resumed(prefix: seq<Entry>, results: seq<Entry>, data: seq<Entry>, visits: seq<Visit>, i: nat): Found
    requires |visits| == |data| && i <= |data|
  {
    var rest := FindFrom(data[i..], visits[i..]);
    Found(prefix + rest.data, results + rest.results)
  }

  /** A visit that drops or keeps the entry at i moves the loop on by one. */
  lemma FindResumesAfter(prefix: seq<Entry>, results: seq<Entry>, data: seq<Entry>, visits: seq<Visit>,
                         i: nat, e: Entry, kept: seq<Entry>)
    requires |visits| == |data| && i < |data|
    requires (visits[i] == Dropped(e) && kept == []) || (visits[i] == Kept(e) && kept == [e])
    ensures Resumed(prefix + [e], results + kept, data, visits, i + 1) == Resumed(prefix, results, data, visits, i)
  {
    assert visits[i..][1..] == visits[i + 1..] && data[i..][1..] == data[i + 1..];
    var next := FindFrom(data[i + 1..], visits[i + 1..]);
    assert (prefix + [e]) + next.data == prefix + ([e] + next.data);
    assert (results + kept) + next.results == results + (kept + next.results);
  }

  /** Past the last entry nothing is left to visit. */
  lemma FindResumesAtEnd(prefix: seq<Entry>, results: seq<Entry>, data: seq<Entry>, visits: seq<Visit>)
    requires |visits| == |data|
    ensures Resumed(prefix, results, data, visits, |data|) == Found(prefix, results)
  {
    assert data[|data|..] == [] && visits[|data|..] == [];
  }

  /** A failed visit at i ends the loop with the rest of `@data` untouched. */
  lemma FindResumesAtFailure(prefix: seq<Entry>, results: seq<Entry>, data: seq<Entry>, visits: seq<Visit>, i: nat)
    requires |visits| == |data| && i < |data| && visits[i] == Failed
    ensures Resumed(prefix, results, data, visits, i) == Found(prefix + data[i..], results)
  {
    assert visits[i..][0] == Failed;
  }

  /** `hash_code(s)` with its loop over the bytes. */
  method HashCode(s: seq<byte>) returns (h: int)
    ensures h == HashOf(s)
    ensures 0 <= h < HASH_MODULUS
  {
    h := 0;
    var i := 0;
    while i < |s|
      invariant 0 <= i <= |s|
      invariant h == HashOf(s[..i])
    {
      assert s[..i + 1] == s[..i] + [s[i]];
      HashAppend(s[..i], s[i]);
      h := (128 * h + Signed(s[i])) % HASH_MODULUS;
      i := i + 1;
    }
    assert s[..i] == s;
    HashRange(s);
  }

  /** The loop over the search words of `find` for one entry, whose word sums
      `sum` gives. */
  method ScoreWords(words: seq<seq<byte>>, sum: seq<byte> -> Option<real>) returns (r: Option<real>)
    ensures r == ScanWords(words, sum, 0.0)
  {
    var score := 0.0;
    var i := 0;
    while i < |words|
      invariant 0 <= i <= |words|
      invariant ScanWords(words[i..], sum, score) == ScanWords(words, sum, 0.0)
    {
      assert words[i..][1..] == words[i + 1..];
      var w := words[i];
      if w != [] {
        var s := sum(w);
        if s.None? {
          return None;
        }
        if s.value == 0.0 {
          return Some(0.0);
        }
        score := score + s.value;
      }
      i := i + 1;
    }
    return Some(score);
  }

  /** The body of the entry loop of `find`. */
  method VisitOf(e: Entry, words: seq<seq<byte>>, totalTrack: int,
                 validate: Callable -> ProcOutcome, regex: (seq<byte>, seq<byte>) -> Option<nat>)
    returns (v: Visit)
    ensures v == VisitEntry(e, words, totalTrack, validate, regex)
  {
    var scanned := ScoreWords(words, SumFor(e, regex));
    v := Settle(e, scanned, totalTrack, validate);
  }

  /** The body of the entry loop after the word loop. It repeats `Settled`
      as statements only so that `VisitOf` is proved in two small steps. */
  method Settle(e: Entry, scanned: Option<real>, totalTrack: int, validate: Callable -> ProcOutcome)
    returns (v: Visit)
    ensures v == Settled(e, scanned, totalTrack, validate)
  {
    if scanned.None? {
      return Failed;
    }
    var score := scanned.value;
    if e.icon.Some? {
      score := 3.0 * score;
    }
    var status := e.enabled;
    if e.validation.Some? {
      status := Status(validate(e.validation.value));
      if status == Some(false) {
        score := 0.5 * score;
      }
    }
    var entry := e.(enabled := status);
    if score <= 1.0 {
      return Dropped(entry);
    }
    return Kept(entry.(score := Some(score + Popularity(entry.track, totalTrack))));
  }
}
