/** The `eventBroadcaster` module: a registry from channel names to the
    ordered list of handlers subscribed to each. Handlers are known only by
    their identity; raising an event yields the handlers it would call. */
module EventBus {
  import opened Wrappers
  import opened Seqs

  /** A subscribed callback, identified as `===` identifies functions. */
  datatype Handler = Handler(id: nat)

  /** The handlers of `channel`, or none when it does not exist. */
  function HandlersOf(events: map<string, seq<Handler>>, channel: string): seq<Handler> {
    if channel in events then events[channel] else []
  }

  /** The registry after `createEvent(channel)`: an existing channel is kept. */
  function WithChannel(events: map<string, seq<Handler>>, channel: string): (r: map<string, seq<Handler>>)
    ensures channel in r && r.Keys == events.Keys + {channel}
    ensures forall c :: c in events ==> r[c] == events[c]
    ensures channel !in events ==> r[channel] == []
  {
    if channel in events then events else events[channel := []]
  }

  /** The list without the first occurrence of `h`; later duplicates stay. */
  function RemoveFirst(s: seq<Handler>, h: Handler): (r: seq<Handler>)
    ensures h !in s ==> r == s
    ensures h in s ==> multiset(r) == multiset(s) - multiset{h}
  {
    if s == [] then []
    else if s[0] == h then (assert s == [s[0]] + s[1..]; s[1..])
    else (assert s == [s[0]] + s[1..]; [s[0]] + RemoveFirst(s[1..], h))
  }

  /** Splicing out the index `findIndex` reports removes the first occurrence. */
  lemma {:induction false} RemoveFirstAt(s: seq<Handler>, h: Handler, index: nat)
    requires index < |s| && s[index] == h && h !in s[..index]
    ensures RemoveAt(s, index) == RemoveFirst(s, h)
  {
    if index > 0 {
      var t := s[1..];
      assert s[0] == s[..index][0] && s[0] != h;
      assert t[..index - 1] == s[..index][1..];
      RemoveFirstAt(t, h, index - 1);
      calc {
        RemoveAt(s, index);
        s[..index] + s[index + 1..];
        { assert s[..index] == [s[0]] + t[..index - 1] && s[index + 1..] == t[index..]; }
        [s[0]] + (t[..index - 1] + t[index..]);
        [s[0]] + RemoveAt(t, index - 1);
      }
    }
  }

  /** A handler subscribed once receives nothing on that channel after it is
      unsubscribed. */
  lemma UnsubscribeOnce(s: seq<Handler>, h: Handler)
    requires multiset(s)[h] == 1
    ensures h !in RemoveFirst(s, h)
  {
  }

  /** Of handlers subscribed several times, only one subscription goes. */
  lemma UnsubscribeKeepsDuplicates(s: seq<Handler>, h: Handler)
    requires multiset(s)[h] >= 2
    ensures h in RemoveFirst(s, h)
    ensures multiset(RemoveFirst(s, h))[h] == multiset(s)[h] - 1
  {
  }

  class EventBroadcaster {
    var events: map<string, seq<Handler>>

    constructor ()
      ensures events == map[]
    {
      events := map[];
    }

    /** `subscribe(type, ...handlers)`: appends the handlers, in argument
        order, creating the channel first when it is missing. */
    method Subscribe(channel: string, handlers: seq<Handler>)
      modifies this
      ensures events == old(events)[channel := HandlersOf(old(events), channel) + handlers]
      ensures events.Keys == old(events.Keys) + {channel}
    {
      if channel !in events {
        CreateEvent(channel);
      }
      events := events[channel := events[channel] + handlers];
    }

    /** `unsubscribe(type, handler)`: removes the first identical occurrence
        of a truthy handler; a missing channel, an absent handler and a falsy
        handler (`None`) leave the registry as it was. */
    method Unsubscribe(channel: string, handler: Option<Handler>)
      modifies this
      ensures channel !in old(events) || handler == None ==> events == old(events)
      ensures channel in old(events) && handler != None ==>
        events == old(events)[channel := RemoveFirst(old(events)[channel], handler.value)]
      ensures channel in old(events) && handler != None && handler.value !in old(events)[channel] ==>
        events == old(events)
    {
      if channel !in events {
        return;
      }
      var handlers := events[channel];
      if handler != None {
        var index := FindIndex(handlers, handler.value);
        if index != -1 {
          RemoveFirstAt(handlers, handler.value, index);
          events := events[channel := RemoveAt(handlers, index)];
        } else {
          assert events == events[channel := handlers];
        }
      }
    }

    /** `createEvent(type)`: an empty channel, unless it already exists. */
    method CreateEvent(channel: string)
      modifies this
      ensures events == WithChannel(old(events), channel)
      ensures channel in old(events) ==> events == old(events)
    {
      if channel in events {
        return;
      }
      events := events[channel := []];
    }

    /** `deleteEvent(type)`: the channel and its subscribers are gone. */
    method DeleteEvent(channel: string)
      modifies this
      ensures channel !in events
      ensures events == old(events) - {channel}
    {
      events := events - {channel};
    }

    /** `raiseEvent(type, data)`: the handlers of the channel, each once, in
        subscription order; a missing channel is created and calls nothing. */
    method RaiseEvent(channel: string) returns (called: seq<Handler>)
      modifies this
      ensures called == HandlersOf(old(events), channel)
      ensures events == WithChannel(old(events), channel)
    {
      if channel !in events {
        CreateEvent(channel);
      }
      var handlers := events[channel];
      called := [];
      for i := 0 to |handlers|
        invariant called == handlers[..i]
      {
        called := called + [handlers[i]];
      }
    }

    /** `reset()` as written: it assigns to the `const` binding of the
        registry, so it always throws a TypeError and clears nothing. */
    method ResetAsWritten() returns (threw: bool)
      ensures threw
    {
      threw := true;
    }

    /** `reset()` as intended: every channel and subscription is gone. */
    method Reset()
      modifies this
      ensures events == map[]
    {
      events := map[];
    }
  }

  /** With the reset as written, a handler subscribed before the reset is
      still called afterwards. The scenario assumes the caller catches the
      TypeError that `reset()` throws; otherwise the later raise never runs. */
  method ResetAsWrittenKeepsHandlers() returns (called: seq<Handler>)
    ensures called == [Handler(0)]
  {
    var bus := new EventBroadcaster();
    bus.Subscribe("GameOver", [Handler(0)]);
    var threw := bus.ResetAsWritten();
    called := bus.RaiseEvent("GameOver");
  }

  /** With the intended reset, raising a previously registered channel
      calls no handler. */
  method ResetSilencesChannels() returns (called: seq<Handler>)
    ensures called == []
  {
    var bus := new EventBroadcaster();
    bus.Subscribe("GameOver", [Handler(0)]);
    bus.Reset();
    called := bus.RaiseEvent("GameOver");
  }
}
