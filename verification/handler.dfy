/** `ChangesetHandler`, the SAX content handler that turns element events into
    changeset records (lib/changesets.py:46-74, repeated in lib/parser.py:43-71). */
module Handler {
  import opened Wrappers
  import opened Record
  import opened Writer
  import opened Seqs

  /** An element event as the SAX parser reports it. */
  datatype Event = Start(name: string, attrs: map<string, string>) | End(name: string)

  /** The event that closes a changeset and hands its record to the callback. */
  const CloseChangeset: Event := End("changeset")

  /** An event the handler does nothing with, whatever its state. */
  predicate Ignored(e: Event)
  {
    match e
    case Start(name, _) => name != "changeset" && name != "tag"
    case End(name) => name != "changeset"
  }

  /** The handler's `current_changeset` after one event. */
  function Step(current: Option<Changeset>, e: Event): (next: Option<Changeset>)
    ensures e.Start? && e.name == "changeset" ==> next == Some(Open(e.attrs))
    ensures e.Start? && e.name == "tag" && current.Some? ==> next == Some(ApplyTag(current.value, e.attrs))
    ensures e.Start? && e.name != "changeset" && (e.name != "tag" || current.None?) ==> next == current
    ensures e.End? ==> next == current
  {
    match e
    case Start(name, attrs) =>
      if name == "changeset" then Some(Open(attrs))
      else if name == "tag" && current.Some? then Some(ApplyTag(current.value, attrs))
      else current
    case End(_) => current
  }

  /** `current_changeset` after a run of events from a fresh handler. */
  function After(events: seq<Event>): Option<Changeset>
  {
    if events == [] then None
    else Step(After(events[..|events| - 1]), events[|events| - 1])
  }

  /** The arguments of the callback invocations a run of events causes, in order:
      every `changeset` end hands over whatever record is current. */
  function Delivered(events: seq<Event>): seq<Option<Changeset>>
  {
    if events == [] then []
    else
      var init := events[..|events| - 1];
      Delivered(init) + if events[|events| - 1] == CloseChangeset then [After(init)] else []
  }

  /** Reference count of the `changeset` end events in a run. */
  function CountEnds(events: seq<Event>): nat
  {
    multiset(events)[CloseChangeset]
  }

  /** One callback invocation per `changeset` end event. */
  lemma {:induction false} DeliveredCount(events: seq<Event>)
    ensures |Delivered(events)| == CountEnds(events)
    decreases |events|
  {
    if events != [] {
      var init := events[..|events| - 1];
      assert events == init + [events[|events| - 1]];
      DeliveredCount(init);
    }
  }

  /** The callbacks of a run begin with the callbacks of any prefix of it. */
  lemma {:induction false} DeliveredExtends(events: seq<Event>, later: seq<Event>)
    ensures Delivered(events) <= Delivered(events + later)
    decreases |later|
  {
    if later == [] {
      AppendEmpty(events);
    } else {
      var init, last := later[..|later| - 1], later[|later| - 1];
      SplitLast(later);
      ConcatAssoc(events, init, [last]);
      Snoc(events + init, last);
      DeliveredExtends(events, init);
    }
  }

  /** Before the first `changeset` start there is no record: tags change nothing. */
  lemma {:induction false} NoRecordBeforeFirstChangeset(events: seq<Event>)
    requires forall i :: 0 <= i < |events| ==> events[i].End? || events[i].name != "changeset"
    ensures After(events) == None
    decreases |events|
  {
    if events != [] {
      NoRecordBeforeFirstChangeset(events[..|events| - 1]);
    }
  }

  /** The record at any point depends only on the events since the last `changeset`
      start: tag values of earlier records never carry over. */
  lemma {:induction false} RecordIsOwnElement(earlier: seq<Event>, attrs: map<string, string>, since: seq<Event>)
    requires forall i :: 0 <= i < |since| ==> since[i].End? || since[i].name != "changeset"
    ensures After(earlier + [Start("changeset", attrs)] + since) == After([Start("changeset", attrs)] + since)
    decreases |since|
  {
    var open := Start("changeset", attrs);
    if since == [] {
      AppendEmpty(earlier + [open]);
      AppendEmpty([open]);
      Snoc(earlier, open);
      Snoc([], open);
      assert [] + [open] == [open];
    } else {
      var init, last := since[..|since| - 1], since[|since| - 1];
      SplitLast(since);
      ConcatAssoc(earlier + [open], init, [last]);
      ConcatAssoc([open], init, [last]);
      Snoc(earlier + [open] + init, last);
      Snoc([open] + init, last);
      RecordIsOwnElement(earlier, attrs, init);
    }
  }

  /** One more event appended to a run: the definitions of After and Delivered unfolded. */
  lemma Snoc(run: seq<Event>, last: Event)
    ensures After(run + [last]) == Step(After(run), last)
    ensures Delivered(run + [last]) == Delivered(run) + if last == CloseChangeset then [After(run)] else []
  {
    assert (run + [last])[..|run|] == run;
  }

  /** An ignored event, wherever it occurs, leaves the record unchanged. */
  lemma {:induction false} IgnoredEventKeepsRecord(before: seq<Event>, e: Event, after: seq<Event>)
    requires Ignored(e)
    ensures After(before + [e] + after) == After(before + after)
    decreases |after|
  {
    if after == [] {
      assert before + [e] + after == before + [e];
      assert before + after == before;
      Snoc(before, e);
    } else {
      var init, last := after[..|after| - 1], after[|after| - 1];
      var withE, withoutE := before + [e] + init, before + init;
      assert before + [e] + after == withE + [last];
      assert before + after == withoutE + [last];
      Snoc(withE, last);
      Snoc(withoutE, last);
      IgnoredEventKeepsRecord(before, e, init);
    }
  }

  /** An ignored event, wherever it occurs, changes none of the callbacks. */
  lemma {:induction false} IgnoredEventInvisible(before: seq<Event>, e: Event, after: seq<Event>)
    requires Ignored(e)
    ensures Delivered(before + [e] + after) == Delivered(before + after)
    decreases |after|
  {
    if after == [] {
      assert before + [e] + after == before + [e];
      assert before + after == before;
      Snoc(before, e);
    } else {
      var init, last := after[..|after| - 1], after[|after| - 1];
      var withE, withoutE := before + [e] + init, before + init;
      assert before + [e] + after == withE + [last];
      assert before + after == withoutE + [last];
      Snoc(withE, last);
      Snoc(withoutE, last);
      IgnoredEventKeepsRecord(before, e, init);
      IgnoredEventInvisible(before, e, init);
    }
  }

  /** The handler never forgets its record at an end event: a stray tag after
      `</changeset>` still reaches the record just handed over. */
  lemma StrayTagReachesLastRecord(events: seq<Event>, attrs: map<string, string>)
    requires After(events).Some?
    ensures After(events + [CloseChangeset, Start("tag", attrs)]) == Some(ApplyTag(After(events).value, attrs))
  {
    var run := events + [CloseChangeset, Start("tag", attrs)];
    assert run[..|run| - 1] == events + [CloseChangeset];
    assert (events + [CloseChangeset])[..|events|] == events;
  }

  /** The SAX content handler; `callback` is the `write` closure bound to the sink. */
  class ChangesetHandler {
    var current: Option<Changeset>
    const callback: CsvSink

    constructor (callback: CsvSink)
      ensures this.callback == callback && current == None
    {
      this.callback := callback;
      current := None;
    }

    /** `startElement`: a `changeset` start opens a fresh record from the attributes;
        a `tag` start sets a tag column of the open record; anything else does nothing. */
    method StartElement(name: string, attrs: map<string, string>)
      modifies this
      ensures current == Step(old(current), Start(name, attrs))
      ensures name == "changeset" ==> current == Some(Open(attrs))
      ensures name == "tag" && old(current).Some? ==> current == Some(ApplyTag(old(current).value, attrs))
      ensures name != "changeset" && (name != "tag" || old(current).None?) ==> current == old(current)
    {
      if name == "changeset" {
        current := Some(Open(attrs));
      } else if name == "tag" && current.Some? {
        current := Some(ApplyTag(current.value, attrs));
      }
    }

    /** `endElement`: a `changeset` end invokes the callback once with the current
        record, which stays current; any other end does nothing. */
    method EndElement(name: string) returns (raised: bool)
      modifies callback
      ensures name == "changeset" ==>
        raised == WriteRow(current, callback.editorFilter).Raised? &&
        callback.rows == old(callback.rows) + RowsOf(WriteRow(current, callback.editorFilter))
      ensures name != "changeset" ==> !raised && callback.rows == old(callback.rows)
    {
      raised := false;
      if name == "changeset" {
        raised := callback.Write(current);
      }
    }

    /** The SAX parser's dispatch of one event to `startElement` or `endElement`. */
    method Handle(e: Event) returns (raised: bool)
      modifies this, callback
      ensures current == Step(old(current), e)
      ensures raised == (e == CloseChangeset && WriteRow(old(current), callback.editorFilter).Raised?)
      ensures callback.rows == old(callback.rows) + if e == CloseChangeset then RowsOf(WriteRow(old(current), callback.editorFilter)) else []
    {
      match e {
        case Start(name, attrs) =>
          StartElement(name, attrs);
          raised := false;
        case End(name) =>
          raised := EndElement(name);
      }
    }
  }
}
