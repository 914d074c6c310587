/** The dialog's `History`: the recently executed commands, newest first,
    without duplicates and at most `history_max_length` long. `DATA` holds the
    entries and `Options.history_entries` their ids; the list items in the
    page are not modelled. */
module History {
  import opened Common

  /** `MAX_LENGTH`, the maximum when the option is missing. */
  const MAX_LENGTH: nat := 20

  /** A command entry as far as the history looks at it: its id, and whether
      its `no_history` is `true`. */
  datatype HistoryEntry = HistoryEntry(id: int, noHistory: bool)

  /** `DATA` and `Options.history_entries`. */
  datatype State = State(data: seq<HistoryEntry>, entries: seq<int>)

  predicate HasId(data: seq<HistoryEntry>, id: int)
  {
    exists k :: 0 <= k < |data| && data[k].id == id
  }

  /** No two entries share an id. */
  predicate DistinctIds(data: seq<HistoryEntry>)
  {
    forall j, k :: 0 <= j < k < |data| ==> data[j].id != data[k].id
  }

  /** The ids of the entries, in order. */
  function Ids(data: seq<HistoryEntry>): seq<int>
  {
    seq(|data|, k requires 0 <= k < |data| => data[k].id)
  }

  /** The saved id list names the entries in `DATA`, in the same order. */
  predicate InSync(s: State)
  {
    s.entries == Ids(s.data)
  }

  /** At most `max` entries, none twice. */
  predicate Valid(s: State, max: nat)
  {
    |s.data| <= max && DistinctIds(s.data)
  }

  /** `add(entry)`: nothing for an entry marked `no_history` or one whose id
      is present; otherwise the entry and its id go to the front, and when
      `DATA` is then longer than `max` the last item of both lists is popped. */
  function AddSpec(s: State, e: HistoryEntry, max: nat): State
  {
    if e.noHistory || HasId(s.data, e.id) then s
    else
      var data, entries := [e] + s.data, [e.id] + s.entries;
      if |data| > max then State(data[..|data| - 1], entries[..|entries| - 1]) else State(data, entries)
  }

  /** The `load` loop after the entries at indices lo .. hi-1 were added,
      from hi-1 down to lo, to `s`. */
  function AddDown(s: State, list: seq<HistoryEntry>, hi: nat, lo: nat, max: nat): State
    requires hi <= |list|
    decreases hi - lo
  {
    if hi <= lo then s else AddSpec(AddDown(s, list, hi, lo + 1, max), list[lo], max)
  }

  /** `load(array)`: the id list is cleared (`DATA` is not), then the first
      min(|array|, max) entries are added, the last of them first. */
  function LoadSpec(s: State, list: seq<HistoryEntry>, max: nat): State
  {
    AddDown(State(s.data, []), list, MinInt(|list|, max), 0, max)
  }

  class History {
    var data: seq<HistoryEntry>
    var entries: seq<int>
    const maxLength: nat

    function Snapshot(): State
      reads this
    {
      State(data, entries)
    }

    /** `initialize`: `DATA` starts empty; a missing maximum becomes
        MAX_LENGTH; the saved id list is kept. */
    constructor(maxOption: nat, savedEntries: seq<int>)
      ensures Snapshot() == State([], savedEntries)
      ensures maxLength == if maxOption == 0 then MAX_LENGTH else maxOption
      ensures Valid(Snapshot(), maxLength) && maxLength >= 1
    {
      data := [];
      entries := savedEntries;
      maxLength := if maxOption == 0 then MAX_LENGTH else maxOption;
    }

    method Add(e: HistoryEntry)
      modifies this
      ensures Snapshot() == AddSpec(old(Snapshot()), e, maxLength)
    {
      if e.noHistory {
        return;
      }
      var i := 0;
      while i < |data|
        invariant 0 <= i <= |data|
        invariant forall k :: 0 <= k < i ==> data[k].id != e.id
      {
        if data[i].id == e.id {
          return;
        }
        i := i + 1;
      }
      data := [e] + data;
      entries := [e.id] + entries;
      if |data| > maxLength {
        data := data[..|data| - 1];
        entries := entries[..|entries| - 1];
      }
    }

    method Load(list: seq<HistoryEntry>)
      modifies this
      ensures Snapshot() == LoadSpec(old(Snapshot()), list, maxLength)
    {
      entries := [];
      ghost var start := Snapshot();
      var l := MinInt(|list|, maxLength);
      var i := l - 1;
      while i >= 0
        invariant -1 <= i < l
        invariant Snapshot() == AddDown(start, list, l, i + 1, maxLength)
      {
        Add(list[i]);
        i := i - 1;
      }
    }
  }

  /** `add` keeps the history bounded and free of duplicates, keeps the id
      list in step with `DATA`, and changes nothing exactly when the entry is
      marked or already present (an existing entry is not moved); otherwise
      the entry comes first and the rest follow, cut to `max`. */
  lemma AddKeepsHistory(s: State, e: HistoryEntry, max: nat)
    requires max >= 1 && Valid(s, max)
    ensures Valid(AddSpec(s, e, max), max)
    ensures InSync(s) ==> InSync(AddSpec(s, e, max))
    ensures AddSpec(s, e, max) == s <==> e.noHistory || HasId(s.data, e.id)
    ensures !e.noHistory && !HasId(s.data, e.id) ==>
      AddSpec(s, e, max).data == ([e] + s.data)[..MinInt(|s.data| + 1, max)] && AddSpec(s, e, max).data[0] == e
  {
    var r := AddSpec(s, e, max);
    if !e.noHistory && !HasId(s.data, e.id) {
      var data := [e] + s.data;
      assert r.data == data[..MinInt(|s.data| + 1, max)];
      assert r.data[0] == e;
      assert r != s by {
        if |s.data| > 0 {
          assert s.data[0].id != e.id;
        }
      }
      forall j, k | 0 <= j < k < |r.data|
        ensures r.data[j].id != r.data[k].id
      {
        if j > 0 {
          assert r.data[j] == s.data[j - 1] && r.data[k] == s.data[k - 1];
        } else {
          assert r.data[k] == s.data[k - 1];
        }
      }
      if InSync(s) {
        assert [e.id] + s.entries == Ids(data);
      }
    }
  }

  /** Every step of `load` keeps the history valid. */
  lemma {:induction false} AddDownKeepsValid(s: State, list: seq<HistoryEntry>, hi: nat, lo: nat, max: nat)
    requires hi <= |list| && max >= 1 && Valid(s, max)
    ensures Valid(AddDown(s, list, hi, lo, max), max)
    decreases hi - lo
  {
    if hi > lo {
      AddDownKeepsValid(s, list, hi, lo + 1, max);
      AddKeepsHistory(AddDown(s, list, hi, lo + 1, max), list[lo], max);
    }
  }

  /** Loading an empty history with distinct, unmarked entries gives the
      first min(|array|, max) entries in their order, and the id list in step. */
  lemma {:induction false} AddDownOnEmpty(list: seq<HistoryEntry>, hi: nat, lo: nat, max: nat)
    requires lo <= hi <= |list| && hi <= max
    requires DistinctIds(list[..hi])
    requires forall k :: 0 <= k < hi ==> !list[k].noHistory
    ensures AddDown(State([], []), list, hi, lo, max) == State(list[lo..hi], Ids(list[lo..hi]))
    decreases hi - lo
  {
    if hi > lo {
      AddDownOnEmpty(list, hi, lo + 1, max);
      var s := State(list[lo + 1..hi], Ids(list[lo + 1..hi]));
      assert !HasId(s.data, list[lo].id) by {
        forall k | 0 <= k < |s.data|
          ensures s.data[k].id != list[lo].id
        {
          assert s.data[k] == list[..hi][lo + 1 + k] && list[lo] == list[..hi][lo];
        }
      }
      assert [list[lo]] + s.data == list[lo..hi];
      assert [list[lo].id] + s.entries == Ids(list[lo..hi]);
    } else {
      assert list[lo..hi] == [];
    }
  }

  /** On an empty history with distinct, unmarked entries `DATA` becomes the first min(|array|, max) entries in
      order and the id list their ids. */
  lemma LoadOnEmpty(saved: seq<int>, list: seq<HistoryEntry>, max: nat)
    requires max >= 1
    requires DistinctIds(list)
    requires forall k :: 0 <= k < |list| ==> !list[k].noHistory
    ensures var l := MinInt(|list|, max);
      LoadSpec(State([], saved), list, max) == State(list[..l], Ids(list[..l]))
  {
    var l := MinInt(|list|, max);
    AddDownOnEmpty(list, l, 0, max);
    assert list[0..l] == list[..l];
  }

  /** `load` keeps a valid history valid. */
  lemma LoadKeepsValid(s: State, list: seq<HistoryEntry>, max: nat)
    requires max >= 1 && Valid(s, max)
    ensures Valid(LoadSpec(s, list, max), max)
  {
    AddDownKeepsValid(State(s.data, []), list, MinInt(|list|, max), 0, max);
  }

  /** `load` on a history that already shows an entry clears the id list and
      does not add that id again: the list no longer names `DATA`. */
  lemma LoadOnShownEntry()
    ensures var e := HistoryEntry(1, false);
      LoadSpec(State([e], [1]), [e], MAX_LENGTH) == State([e], [])
  {
    var e := HistoryEntry(1, false);
    assert [e][0].id == 1;
  }
}
