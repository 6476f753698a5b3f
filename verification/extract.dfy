/** One extraction run: the header row, then the handler driven over the element
    events of the document, with the `write` callback appending to the sink
    (lib/parser.py:81-88, and the parse thread in lib/changesets.py:127-142). */
module Extract {
  import opened Record
  import opened Writer
  import opened Handler
  import opened Seqs

  /** The rows the whole run leaves in the sink, header included. */
  function Output(events: seq<Event>, editorFilter: string): (rows: seq<seq<string>>)
  {
    [HeaderRow()] + Emit(Delivered(events), editorFilter).rows
  }

  /** Dispatches each event to the handler, as the SAX parser does, until the end of
      the events or until the callback raises, which ends the run. */
  method Parse(events: seq<Event>, editorFilter: string) returns (output: seq<seq<string>>, failed: bool)
    ensures output == Output(events, editorFilter)
    ensures failed == Emit(Delivered(events), editorFilter).failed
  {
    var sink := new CsvSink(editorFilter);
    sink.WriteHeader();
    var handler := new ChangesetHandler(sink);
    var i := 0;
    failed := false;
    while i < |events| && !failed
      invariant 0 <= i <= |events|
      invariant handler.callback == sink && sink.editorFilter == editorFilter
      invariant handler.current == After(events[..i])
      invariant sink.rows == Output(events[..i], editorFilter)
      invariant failed == Emit(Delivered(events[..i]), editorFilter).failed
    {
      var e := events[i];
      RunStep(events[..i], e, editorFilter);
      PrefixStep(events, i);
      failed := handler.Handle(e);
      i := i + 1;
    }
    if failed {
      RunStopsAtRaise(events, i, editorFilter);
    } else {
      assert events[..i] == events by { PrefixWhole(events); }
    }
    output := sink.rows;
  }

  /** One more event after a run whose callbacks have not raised. */
  lemma RunStep(run: seq<Event>, e: Event, editorFilter: string)
    requires !Emit(Delivered(run), editorFilter).failed
    ensures After(run + [e]) == Step(After(run), e)
    ensures Output(run + [e], editorFilter)
         == Output(run, editorFilter) + if e == CloseChangeset then RowsOf(WriteRow(After(run), editorFilter)) else []
    ensures Emit(Delivered(run + [e]), editorFilter).failed
         == (e == CloseChangeset && WriteRow(After(run), editorFilter).Raised?)
  {
    Snoc(run, e);
    if e == CloseChangeset {
      CloseStep(run, editorFilter);
    } else {
      OtherStep(run, e, editorFilter);
    }
  }

  /** A `changeset` end after a run that has not raised: the callback's rows follow. */
  lemma CloseStep(run: seq<Event>, editorFilter: string)
    requires !Emit(Delivered(run), editorFilter).failed
    ensures var w := WriteRow(After(run), editorFilter);
      Output(run + [CloseChangeset], editorFilter) == Output(run, editorFilter) + RowsOf(w) &&
      Emit(Delivered(run + [CloseChangeset]), editorFilter).failed == w.Raised?
  {
    Snoc(run, CloseChangeset);
    EmitSnoc(Delivered(run), After(run), editorFilter);
    ConcatAssoc([HeaderRow()], Emit(Delivered(run), editorFilter).rows, RowsOf(WriteRow(After(run), editorFilter)));
  }

  /** Any other event hands nothing over. */
  lemma OtherStep(run: seq<Event>, e: Event, editorFilter: string)
    requires e != CloseChangeset
    ensures Output(run + [e], editorFilter) == Output(run, editorFilter) + []
    ensures Emit(Delivered(run + [e]), editorFilter) == Emit(Delivered(run), editorFilter)
  {
    Snoc(run, e);
    AppendEmpty(Delivered(run));
    AppendEmpty(Output(run, editorFilter));
  }

  /** Once a callback has raised, the rest of the document changes nothing. */
  lemma {:induction false} RunStopsAtRaise(events: seq<Event>, i: nat, editorFilter: string)
    requires i <= |events|
    requires Emit(Delivered(events[..i]), editorFilter).failed
    ensures Emit(Delivered(events), editorFilter) == Emit(Delivered(events[..i]), editorFilter)
    decreases |events| - i
  {
    if i == |events| {
      PrefixWhole(events);
    } else {
      var init, last := events[..|events| - 1], events[|events| - 1];
      SplitLast(events);
      PrefixOfPrefix(events, |events| - 1, i);
      RunStopsAtRaise(init, i, editorFilter);
      Snoc(init, last);
      if last == CloseChangeset {
        EmitSnoc(Delivered(init), After(init), editorFilter);
      } else {
        AppendEmpty(Delivered(init));
      }
    }
  }

  /** Rows appear in the order of the `changeset` end events: the data rows are those of
      the records handed over, filtered by prefix, up to the first raise. */
  lemma RowsAreFilteredRecordsInOrder(events: seq<Event>, editorFilter: string)
    ensures Output(events, editorFilter)
         == [HeaderRow()] + Selected(Delivered(events)[..FirstRaise(Delivered(events), editorFilter)], editorFilter)
    ensures Emit(Delivered(events), editorFilter).failed <==> FirstRaise(Delivered(events), editorFilter) < |Delivered(events)|
  {
    EmitIsSelectedPrefix(Delivered(events), editorFilter);
  }

  /** With the empty filter (the default when no editor is given) a run in which every
      `changeset` end has a record with a created_by writes one row per end event. */
  lemma EmptyFilterRowCount(events: seq<Event>)
    requires forall d :: d in Delivered(events) ==> d.Some? && d.value.createdBy.Some?
    ensures |Output(events, "")| == 1 + CountEnds(events)
    ensures !Emit(Delivered(events), "").failed
  {
    var ds := Delivered(events);
    forall i | 0 <= i < |ds| ensures !WriteRow(ds[i], "").Raised? {
      assert ds[i] in ds;
    }
    EmptyFilterEmitsAll(ds);
    DeliveredCount(events);
  }

  /** Start elements other than `changeset` and `tag`, and end elements other than
      `changeset`, do not change what is written. */
  lemma IgnoredEventDoesNotChangeOutput(before: seq<Event>, e: Event, after: seq<Event>, editorFilter: string)
    requires Ignored(e)
    ensures Output(before + [e] + after, editorFilter) == Output(before + after, editorFilter)
  {
    IgnoredEventInvisible(before, e, after);
  }
}
