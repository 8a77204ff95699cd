/** The replay buffer for missed events, against the history of everything emitted. */
module EventStore {
  import opened Rubric

  datatype Event = Event(name: string, entity: string, stamp: string, seqNo: int)

  /** An event with the time it was stored at, in seconds. */
  datatype Stored = Stored(at: real, event: Event)

  function Events(stored: seq<Stored>): (r: seq<Event>)
    ensures |r| == |stored| && forall i :: 0 <= i < |r| ==> r[i] == stored[i].event
  {
    seq(|stored|, (i: nat) requires i < |stored| => stored[i].event)
  }

  /** The events numbered above `last`, in order. */
  function After(events: seq<Event>, last: int): (r: seq<Event>) {
    if events == [] then []
    else if events[0].seqNo > last then [events[0]] + After(events[1..], last)
    else After(events[1..], last)
  }

  ghost predicate Increasing(events: seq<Event>) {
    forall i, j :: 0 <= i < j < |events| ==> events[i].seqNo < events[j].seqNo
  }

  ghost predicate Suffix<T>(s: seq<T>, whole: seq<T>) {
    |s| <= |whole| && whole[|whole| - |s|..] == s
  }

  lemma {:induction false} AfterConcat(a: seq<Event>, b: seq<Event>, last: int)
    requires forall e :: e in a ==> e.seqNo <= last
    ensures After(a + b, last) == After(b, last)
  {
    if a == [] {
      assert a + b == b;
    } else {
      assert (a + b)[1..] == a[1..] + b;
      AfterConcat(a[1..], b, last);
    }
  }

  /** A suffix of an increasing history misses nothing above a number it already reaches back to. */
  lemma SuffixHasAll(buffer: seq<Event>, history: seq<Event>, last: int)
    requires Suffix(buffer, history) && Increasing(history)
    requires buffer == [] ==> history == []
    requires buffer != [] ==> last >= buffer[0].seqNo
    ensures After(buffer, last) == After(history, last)
  {
    var dropped := history[..|history| - |buffer|];
    assert history == dropped + buffer;
    forall e | e in dropped ensures e.seqNo <= last {
      var i :| 0 <= i < |dropped| && dropped[i] == e;
      assert history[|dropped|] == buffer[0];
    }
    AfterConcat(dropped, buffer, last);
  }

  /** The entries left once those at the front that are due have been dropped. */
  function DropDue(stored: seq<Stored>, cutoff: real): seq<Stored> {
    if stored != [] && stored[0].at <= cutoff then DropDue(stored[1..], cutoff) else stored
  }

  lemma SuffixAppend<T>(s: seq<T>, whole: seq<T>, x: T)
    requires Suffix(s, whole)
    ensures Suffix(s + [x], whole + [x])
  {
    var n := |whole| - |s|;
    assert (whole + [x])[n..] == whole[n..] + [x];
  }

  lemma TailIsSuffix(buffer: seq<Stored>, history: seq<Event>)
    requires buffer != [] && Suffix(Events(buffer), history)
    ensures Suffix(Events(buffer[1..]), history)
  {
    assert Events(buffer[1..]) == Events(buffer)[1..];
  }

  lemma IncreasingAppend(events: seq<Event>, event: Event)
    requires events == [] || events[|events| - 1].seqNo < event.seqNo
    ensures Increasing(events) ==> Increasing(events + [event])
  {
  }

  lemma EventsAppend(stored: seq<Stored>, x: Stored)
    ensures Events(stored + [x]) == Events(stored) + [x.event]
  {
  }

  class Store {
    const ttl: real
    var buffer: seq<Stored>
    var counter: int
    /** Every event ever appended. */
    ghost var history: seq<Event>
    /** The same with the clock readings. */
    ghost var log: seq<Stored>

    /** The buffer is what the appends left, a suffix of the history, and empty only if nothing was ever stored. */
    ghost predicate Valid()
      reads this
    {
      && buffer == Replay(ttl, log) && history == Events(log)
      && Suffix(Events(buffer), history) && (buffer == [] ==> history == [])
    }

    /** Events were appended in the order of their numbers, all taken from the counter. */
    ghost predicate InOrder()
      reads this
    {
      Increasing(history) && (history != [] ==> history[|history| - 1].seqNo <= counter)
    }

    constructor (ttl: real)
      ensures Valid() && InOrder() && log == [] && buffer == [] && counter == 0 && this.ttl == ttl
    {
      this.ttl, buffer, counter, history, log := ttl, [], 0, [], [];
    }

    /** The next sequence number; a number taken without an append leaves a gap. */
    method NextSeq() returns (n: int)
      requires Valid()
      modifies this`counter
      ensures Valid() && n == counter == old(counter) + 1
      ensures old(InOrder()) ==> InOrder() && (history == [] || history[|history| - 1].seqNo < n)
    {
      counter := counter + 1;
      n := counter;
    }

    /** Stores an event after dropping the entries at the front that are older than the time to live. */
    method Append(event: Event, now: real)
      requires Valid()
      modifies this`buffer, this`history, this`log
      ensures Valid() && log == old(log) + [Stored(now, event)]
      ensures old(InOrder()) && old(history == [] || history[|history| - 1].seqNo < event.seqNo) && event.seqNo <= counter ==> InOrder()
      ensures history == old(history) + [event]
      ensures buffer == DropDue(old(buffer), now - ttl) + [Stored(now, event)]
      ensures Chronological(log) ==> OnlyDueLost(log, buffer, now - ttl)
    {
      hide Chronological, OnlyDueLost, DropDue, After, Suffix, Increasing, Events, Replay;
      ReplayStep(ttl, log, Stored(now, event));
      if history == [] || history[|history| - 1].seqNo < event.seqNo {
        IncreasingAppend(history, event);
      }
      EvictDue(now - ttl);
      EventsAppend(buffer, Stored(now, event));
      SuffixAppend(Events(buffer), history, event);
      buffer, history, log := buffer + [Stored(now, event)], history + [event], log + [Stored(now, event)];
    }

    method EvictDue(cutoff: real)
      requires Suffix(Events(buffer), history)
      modifies this`buffer
      ensures Suffix(Events(buffer), history) && buffer == DropDue(old(buffer), cutoff)
    {
      while buffer != [] && buffer[0].at <= cutoff
        invariant Suffix(Events(buffer), history)
        invariant DropDue(buffer, cutoff) == DropDue(old(buffer), cutoff)
        decreases |buffer|
      {
        TailIsSuffix(buffer, history);
        buffer := buffer[1..];
      }
    }

    /** `None` asks for a full resynchronisation; otherwise the answer is what the buffer holds above `last`,
        and with events in order nothing emitted above `last` is missing. */
    method GetAfter(last: int) returns (r: Option<seq<Event>>)
      requires Valid()
      ensures r.Some? ==> r.value == After(Events(buffer), last)
      ensures r.Some? && InOrder() ==> r.value == After(history, last)
      ensures r.None? <==> buffer != [] && last < buffer[0].event.seqNo
    {
      if buffer == [] {
        return Some([]);
      }
      if last < buffer[0].event.seqNo {
        return None;
      }
      if InOrder() {
        SuffixHasAll(Events(buffer), history, last);
      }
      var newer: seq<Event> := [];
      for i := 0 to |buffer|
        invariant newer + After(Events(buffer)[i..], last) == After(Events(buffer), last)
      {
        assert Events(buffer)[i..][1..] == Events(buffer)[i + 1..];
        if buffer[i].event.seqNo > last {
          newer := newer + [buffer[i].event];
        }
      }
      return Some(newer);
    }

    /** The broadcaster's emission: numbering and storing as one step. */
    method Emit(name: string, entity: string, stamp: string, now: real) returns (event: Event)
      requires Valid()
      modifies this
      ensures Valid() && (old(InOrder()) ==> InOrder())
      ensures event == Event(name, entity, stamp, old(counter) + 1) && counter == old(counter) + 1
      ensures history == old(history) + [event]
      ensures buffer == DropDue(old(buffer), now - ttl) + [Stored(now, event)]
      ensures log == old(log) + [Stored(now, event)] && (Chronological(log) ==> OnlyDueLost(log, buffer, now - ttl))
    {
      hide DropDue, Chronological, OnlyDueLost, Replay, Suffix, Increasing, Events;
      var n := NextSeq();
      event := Event(name, entity, stamp, n);
      Append(event, now);
    }
  }

  // ----- runs of the store

  /** The clock readings of the stored entries never decrease. */
  ghost predicate Chronological(stored: seq<Stored>) {
    forall i, j :: 0 <= i < j < |stored| ==> stored[i].at <= stored[j].at
  }

  /** What a sequence of appends leaves in an empty buffer. */
  function Replay(ttl: real, log: seq<Stored>): seq<Stored> {
    if log == [] then []
    else
      var last := log[|log| - 1];
      DropDue(Replay(ttl, log[..|log| - 1]), last.at - ttl) + [last]
  }

  /** One more append, in terms of the replay. */
  lemma ReplayStep(ttl: real, log: seq<Stored>, x: Stored)
    ensures Replay(ttl, log + [x]) == DropDue(Replay(ttl, log), x.at - ttl) + [x]
    ensures Events(log + [x]) == Events(log) + [x.event]
    ensures Chronological(log + [x]) ==> OnlyDueLost(log + [x], Replay(ttl, log + [x]), x.at - ttl)
  {
    hide DropDue, OnlyDueLost, Chronological;
    assert (log + [x])[..|log|] == log;
    if Chronological(log + [x]) {
      OnlyDueIsLost(ttl, log + [x]);
    }
  }

  /** `buffer` is the end of `log`: every entry before it was due at `cutoff`, and of its own all but the last are not. */
  ghost predicate OnlyDueLost(log: seq<Stored>, buffer: seq<Stored>, cutoff: real) {
    && 0 < |buffer| <= |log| && buffer == log[|log| - |buffer|..]
    && (forall i :: 0 <= i < |log| - |buffer| ==> log[i].at <= cutoff)
    && (forall i :: |log| - |buffer| <= i < |log| - 1 ==> log[i].at > cutoff)
  }

  lemma {:induction false} DropDueIsTail(stored: seq<Stored>, cutoff: real) returns (n: nat)
    requires Chronological(stored)
    ensures n <= |stored| && DropDue(stored, cutoff) == stored[n..]
    ensures forall i :: 0 <= i < n ==> stored[i].at <= cutoff
    ensures forall i :: n <= i < |stored| ==> stored[i].at > cutoff
  {
    n := 0;
    if stored != [] && stored[0].at <= cutoff {
      n := DropDueIsTail(stored[1..], cutoff);
      n := n + 1;
    }
  }

  lemma LostStep(front: seq<Stored>, kept: seq<Stored>, last: Stored, before: real, cutoff: real)
    requires before <= cutoff && Chronological(front) && OnlyDueLost(front, kept, before)
    ensures OnlyDueLost(front + [last], DropDue(kept, cutoff) + [last], cutoff)
  {
    hide DropDue;
    var lost := |front| - |kept|;
    assert forall i :: 0 <= i < |kept| ==> kept[i] == front[lost + i];
    var n := DropDueIsTail(kept, cutoff);
    var log := front + [last];
    assert kept[n..] + [last] == log[lost + n..];
    forall i | lost <= i < |front| ensures log[i] == kept[i - lost] {
    }
  }

  /** Over any run with a clock that never goes back, an entry was lost exactly if its time to live has passed;
      the latest entry always stays. */
  lemma {:induction false} OnlyDueIsLost(ttl: real, log: seq<Stored>)
    requires log != [] && Chronological(log)
    ensures OnlyDueLost(log, Replay(ttl, log), log[|log| - 1].at - ttl)
  {
    hide DropDue, Chronological, OnlyDueLost;
    var front, last := log[..|log| - 1], log[|log| - 1];
    assert log == front + [last];
    if front == [] {
      FirstStays(last, last.at - ttl);
    } else {
      ChronologicalFront(front, last);
      OnlyDueIsLost(ttl, front);
      LostStep(front, Replay(ttl, front), last, front[|front| - 1].at - ttl, last.at - ttl);
    }
  }

  lemma ChronologicalFront(front: seq<Stored>, last: Stored)
    requires Chronological(front + [last]) && front != []
    ensures Chronological(front) && front[|front| - 1].at <= last.at
  {
    var log := front + [last];
    assert forall i :: 0 <= i < |front| ==> front[i] == log[i];
    assert log[|front|] == last;
  }

  lemma FirstStays(x: Stored, cutoff: real)
    ensures OnlyDueLost([x], DropDue([], cutoff) + [x], cutoff)
  {
  }

  /** Exactly the larger-numbered events, each once and in order. */
  lemma {:induction false} AfterMeaning(events: seq<Event>, last: int)
    requires Increasing(events)
    ensures Increasing(After(events, last))
    ensures forall e :: e in After(events, last) <==> e in events && e.seqNo > last
  {
    if events != [] {
      AfterMeaning(events[1..], last);
      assert events == [events[0]] + events[1..];
      var rest := After(events[1..], last);
      forall j | 0 <= j < |rest| ensures events[0].seqNo < rest[j].seqNo {
        assert rest[j] in rest && rest[j] in events[1..];
      }
    }
  }
}
