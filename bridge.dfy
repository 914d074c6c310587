/** `AE.Bridge`: messages from the dialog to Ruby, each sent as an `skp:` url
    through a scheduler with a 1 ms interval, and the callbacks Ruby answers by
    message id. */
module Bridge {
  import opened Common
  import opened SchedulerQueue
  import opened Serialize
  import JsScheduler

  /** A callback function handed to `callRuby`, known by a handle. */
  type Callback = nat

  /** The next message id, the callbacks still waiting for an answer (keyed by
      message id), and the callbacks called so far with the data Ruby sent. */
  datatype State = State(messageID: nat, callbacks: map<int, Callback>, called: seq<(Callback, JsValue)>)

  /** Only messages already sent can have a waiting callback. */
  predicate Inv(s: State)
  {
    forall k :: k in s.callbacks ==> 0 <= k < s.messageID
  }

  /** `callRuby` on the bookkeeping: the callback, if any, waits under the
      current id, and the id moves on. */
  function CallRubySpec(s: State, callback: Option<Callback>): State
  {
    State(s.messageID + 1,
          if callback.Some? then s.callbacks[s.messageID as int := callback.value] else s.callbacks,
          s.called)
  }

  /** `callbackJS`: a waiting callback is called with the data (an exception
      it throws is caught) and deleted; an unknown id does nothing. */
  function CallbackSpec(s: State, id: int, data: JsValue): State
  {
    if id in s.callbacks then s.(callbacks := s.callbacks - {id}, called := s.called + [(s.callbacks[id], data)])
    else s
  }

  /** Whether the scheduled request of a url throws: assigning
      `window.location.href` does not. */
  predicate RequestThrows(task: Task)
  {
    false
  }

  /** The ids 0 .. n-1 in order. */
  function Ids(n: nat): seq<Task>
  {
    if n == 0 then [] else Ids(n - 1) + [n - 1]
  }

  /** The url of a message: the action name, the encoded Ruby text of the
      data, and the id after `#`. */
  function Url(name: string, data: JsValue, id: nat, numberText: real -> string, encode: string -> string): string
  {
    "skp:" + name + "@" + encode(Rubify(data, numberText)) + "#" + numberText(id as real)
  }

  class Bridge {
    var messageID: nat
    var callbacks: map<int, Callback>
    var called: seq<(Callback, JsValue)>
    /** The url of message i is urls[i]; the scheduler's task i requests it. */
    var urls: seq<string>
    const scheduler: JsScheduler.Scheduler

    function Snapshot(): State
      reads this
    {
      State(messageID, callbacks, called)
    }

    /** Every message's url is requested once, in the order of the messages:
        requested and pending requests together are the ids 0 .. messageID-1. */
    predicate Valid()
      reads this, scheduler
    {
      Inv(Snapshot()) && |urls| == messageID && scheduler.ran + Flatten(scheduler.scheduled) == Ids(messageID)
    }

    constructor()
      ensures Valid() && fresh(scheduler)
      ensures Snapshot() == State(0, map[], []) && urls == []
      ensures scheduler.Snapshot() == JsScheduler.State([], 0.0, 1.0, [], 0)
    {
      messageID := 0;
      callbacks := map[];
      called := [];
      urls := [];
      scheduler := new JsScheduler.Scheduler(Some(1.0));
    }

    /** `callRuby(name, data, callbackFunction)`: returns the message's id and
        queues the request of its url. */
    method CallRuby(name: string, data: JsValue, callback: Option<Callback>, now: real,
                    numberText: real -> string, encode: string -> string) returns (id: nat)
      requires Valid()
      modifies this, scheduler
      ensures Valid()
      ensures id == old(messageID)
      ensures Snapshot() == CallRubySpec(old(Snapshot()), callback)
      ensures urls == old(urls) + [Url(name, data, id, numberText, encode)]
      ensures scheduler.Snapshot() == JsScheduler.QueueSpec(old(scheduler.Snapshot()), id, now, RequestThrows).state
    {
      var text := Rubify(data, numberText);
      if callback.Some? {
        callbacks := callbacks[messageID := callback.value];
      }
      var url := "skp:" + name + "@" + encode(text) + "#" + numberText(messageID as real);
      urls := urls + [url];
      RequestQueued(scheduler.Snapshot(), messageID, now);
      var _ := scheduler.Queue(messageID, now, RequestThrows);
      messageID := messageID + 1;
      return messageID - 1;
    }

    /** `callbackJS(id, data)`. */
    method CallbackJS(id: int, data: JsValue)
      requires Valid()
      modifies this
      ensures Valid()
      ensures Snapshot() == CallbackSpec(old(Snapshot()), id, data)
      ensures urls == old(urls)
    {
      if id in callbacks {
        called := called + [(callbacks[id], data)];
        callbacks := callbacks - {id};
      }
    }

    /** `puts(text)`: a message to the Ruby console, without a callback. */
    method Puts(text: string, now: real, numberText: real -> string, encode: string -> string) returns (id: nat)
      requires Valid()
      modifies this, scheduler
      ensures Valid()
      ensures id == old(messageID)
      ensures Snapshot() == CallRubySpec(old(Snapshot()), None)
      ensures urls == old(urls) + [Url("puts", Str(text), id, numberText, encode)]
    {
      id := CallRuby("puts", Str(text), None, now, numberText, encode);
    }

    /** A pending timeout of the bridge's scheduler fires at time `now`. */
    method Tick(now: real)
      requires Valid() && scheduler.timers > 0
      modifies scheduler
      ensures Valid()
      ensures scheduler.Snapshot() == JsScheduler.FireSpec(old(scheduler.Snapshot()), now, RequestThrows).state
    {
      var _ := scheduler.FireTimer(now, RequestThrows);
    }
  }

  /** No request task throws, whatever the group it runs in. */
  lemma {:induction false} RequestsReturn(tasks: seq<Task>)
    ensures !RaisesIn(tasks, RequestThrows)
  {
    if tasks != [] {
      RequestsReturn(tasks[1..]);
    }
  }

  /** Queuing a request loses no id and adds the new one last, and no
      exception escapes. */
  lemma RequestQueued(s: JsScheduler.State, id: Task, now: real)
    ensures JsScheduler.QueueSpec(s, id, now, RequestThrows).error.None?
    ensures var r := JsScheduler.QueueSpec(s, id, now, RequestThrows).state;
      r.ran + Flatten(r.scheduled) == s.ran + Flatten(s.scheduled) + [id]
  {
    QueueAppends(s.scheduled, id);
    var q := Queued(s.scheduled, id);
    RequestsReturn(TasksOf(q[0]));
  }

  /** `callRuby` keeps the invariant, never overwrites a waiting callback, and
      returns an id no earlier message had. */
  lemma {:induction false} CallRubyKeepsCallbacks(s: State, callback: Option<Callback>)
    requires Inv(s)
    ensures Inv(CallRubySpec(s, callback))
    ensures s.messageID !in s.callbacks
    ensures forall k :: k in s.callbacks ==> k in CallRubySpec(s, callback).callbacks && CallRubySpec(s, callback).callbacks[k] == s.callbacks[k]
    ensures callback.Some? <==> s.messageID in CallRubySpec(s, callback).callbacks
  {
    var r := CallRubySpec(s, callback);
    forall k | k in r.callbacks
      ensures 0 <= k < r.messageID
    {
      if k != s.messageID {
        assert k in s.callbacks;
      }
    }
  }

  /** `callbackJS` keeps the invariant. */
  lemma CallbackKeepsInv(s: State, id: int, data: JsValue)
    requires Inv(s)
    ensures Inv(CallbackSpec(s, id, data))
  {
  }

  /** Ruby's answer to a message reaches exactly the callback given with it. */
  lemma AnswerReachesCallback(s: State, callback: Callback, data: JsValue)
    requires Inv(s)
    ensures var r := CallbackSpec(CallRubySpec(s, Some(callback)), s.messageID, data);
      r.called == s.called + [(callback, data)] && r.callbacks == s.callbacks && r.messageID == s.messageID + 1
  {
    CallRubyKeepsCallbacks(s, Some(callback));
    assert s.callbacks[s.messageID as int := callback] - {s.messageID as int} == s.callbacks;
  }

  /** An answer to a message sent without a callback calls nothing. */
  lemma AnswerWithoutCallback(s: State, data: JsValue)
    requires Inv(s)
    ensures CallbackSpec(CallRubySpec(s, None), s.messageID, data) == CallRubySpec(s, None)
  {
    CallRubyKeepsCallbacks(s, None);
  }

  /** A callback is called at most once: a second answer with the same id
      changes nothing. */
  lemma CalledAtMostOnce(s: State, id: int, first: JsValue, second: JsValue)
    ensures CallbackSpec(CallbackSpec(s, id, first), id, second) == CallbackSpec(s, id, first)
  {
  }
}
