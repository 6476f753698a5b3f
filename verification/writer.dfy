/** The `write` callback and the CSV sink it appends to
    (lib/changesets.py:127-135, lib/parser.py:81-87). */
module Writer {
  import opened Wrappers
  import opened Record
  import opened Seqs

  /** Python's `str.startswith`: a case-sensitive prefix test. */
  predicate StartsWith(s: string, prefix: string): (r: bool)
    ensures prefix == [] ==> r
    ensures r ==> |prefix| <= |s|
    ensures r ==> forall i :: 0 <= i < |prefix| ==> s[i] == prefix[i]
  {
    |prefix| <= |s| && s[..|prefix|] == prefix
  }

  /** `StartsWith` holds exactly when the text is the prefix followed by something. */
  lemma StartsWithIsPrefixConcat(s: string, prefix: string)
    ensures StartsWith(s, prefix) <==> exists rest :: s == prefix + rest
  {
    if StartsWith(s, prefix) {
      assert s == prefix + s[|prefix|..];
    }
  }

  /** The cells `csv.writer` writes for a list of values: the text, or the empty
      string for None. */
  function Cells(values: seq<Option<string>>): (cells: seq<string>)
    ensures |cells| == |values|
    ensures forall i :: 0 <= i < |values| && values[i].Some? ==> cells[i] == values[i].value
    ensures forall i :: 0 <= i < |values| && values[i].None? ==> cells[i] == ""
  {
    seq(|values|, i requires 0 <= i < |values| => if values[i].Some? then values[i].value else "")
  }

  /** An attribute missing from a `changeset` element is written as an empty cell in its
      own column: the row keeps all twelve columns and none shifts. */
  lemma AbsentAttributeWritesEmptyCell(attrs: map<string, string>, name: string)
    requires IsColumn(name) && !IsTagKey(name) && name !in attrs
    ensures |Cells(ToRow(Open(attrs)))| == ColumnCount
    ensures Cells(ToRow(Open(attrs)))[ColumnIndex(name).value] == ""
  {
    var k := ColumnIndex(name).value;
    var j :| 0 <= j < |HeaderRow()| && HeaderRow()[j] == name;
    assert ColumnIndex(HeaderRow()[j]) == Some(j);
    assert ToRow(Open(attrs))[k] == Field(Open(attrs), name) == None;
  }

  /** What one call of `write` does: append a row, append nothing, or raise
      (an AttributeError on `None.created_by` or `None.startswith`). */
  datatype Written = Appended(row: seq<string>) | Skipped | Raised

  /** The callback's effect on the record it is handed. */
  function WriteRow(arg: Option<Changeset>, editorFilter: string): (w: Written)
    ensures w.Raised? <==> arg.None? || arg.value.createdBy.None?
    ensures w.Appended? <==> !w.Raised? && StartsWith(arg.value.createdBy.value, editorFilter)
    ensures w.Appended? ==> w.row == Cells(ToRow(arg.value)) && |w.row| == ColumnCount
  {
    if arg.None? || arg.value.createdBy.None? then Raised
    else if StartsWith(arg.value.createdBy.value, editorFilter) then Appended(Cells(ToRow(arg.value)))
    else Skipped
  }

  /** The rows one callback adds to the sink. */
  function RowsOf(w: Written): seq<seq<string>>
  {
    if w.Appended? then [w.row] else []
  }

  /** The rows written and whether a callback raised. */
  datatype Emitted = Emitted(rows: seq<seq<string>>, failed: bool)

  /** The callback invoked on `args` in order; the first raise ends the run, so the
      callbacks after it never happen. */
  function Emit(args: seq<Option<Changeset>>, editorFilter: string): (out: Emitted)
    ensures |out.rows| <= |args|
    ensures forall j :: 0 <= j < |out.rows| ==> |out.rows[j]| == ColumnCount
    decreases |args|
  {
    if args == [] then Emitted([], false)
    else
      var prev := Emit(args[..|args| - 1], editorFilter);
      if prev.failed then prev
      else
        var w := WriteRow(args[|args| - 1], editorFilter);
        Emitted(prev.rows + RowsOf(w), w.Raised?)
  }

  /** One more callback after a run: nothing happens once the run has failed. */
  lemma EmitSnoc(args: seq<Option<Changeset>>, arg: Option<Changeset>, editorFilter: string)
    ensures Emit(args + [arg], editorFilter)
         == if Emit(args, editorFilter).failed then Emit(args, editorFilter)
            else Emitted(Emit(args, editorFilter).rows + RowsOf(WriteRow(arg, editorFilter)), WriteRow(arg, editorFilter).Raised?)
  {
    PrefixOfSnoc(args, arg, |args|);
    PrefixWhole(args);
  }

  /** Reference definition: the rows of the records that pass the filter, in order. */
  function Selected(args: seq<Option<Changeset>>, editorFilter: string): seq<seq<string>>
  {
    if args == [] then [] else RowsOf(WriteRow(args[0], editorFilter)) + Selected(args[1..], editorFilter)
  }

  /** The index of the first argument on which the callback raises, or |args|. */
  function FirstRaise(args: seq<Option<Changeset>>, editorFilter: string): (k: nat)
    ensures k <= |args|
    ensures forall i :: 0 <= i < k ==> !WriteRow(args[i], editorFilter).Raised?
    ensures k < |args| ==> WriteRow(args[k], editorFilter).Raised?
  {
    if args == [] then 0
    else if WriteRow(args[0], editorFilter).Raised? then 0
    else 1 + FirstRaise(args[1..], editorFilter)
  }

  /** The first raise of a run with one more record. */
  lemma FirstRaiseSnoc(args: seq<Option<Changeset>>, arg: Option<Changeset>, editorFilter: string)
    ensures FirstRaise(args + [arg], editorFilter)
         == if FirstRaise(args, editorFilter) < |args| then FirstRaise(args, editorFilter)
            else if WriteRow(arg, editorFilter).Raised? then |args| else |args| + 1
  {
    var all := args + [arg];
    assert forall i :: 0 <= i < |args| ==> all[i] == args[i];
    assert all[|args|] == arg;
  }

  lemma {:induction false} SelectedAppend(args: seq<Option<Changeset>>, last: Option<Changeset>, editorFilter: string)
    ensures Selected(args + [last], editorFilter) == Selected(args, editorFilter) + RowsOf(WriteRow(last, editorFilter))
    decreases |args|
  {
    if args != [] {
      assert (args + [last])[1..] == args[1..] + [last];
      SelectedAppend(args[1..], last, editorFilter);
    }
  }

  /** Once a callback has raised, later records change nothing. */
  lemma {:induction false} EmitStopsAtRaise(args: seq<Option<Changeset>>, later: seq<Option<Changeset>>, editorFilter: string)
    requires Emit(args, editorFilter).failed
    ensures Emit(args + later, editorFilter) == Emit(args, editorFilter)
    decreases |later|
  {
    if later == [] {
      AppendEmpty(args);
    } else {
      var init, last := later[..|later| - 1], later[|later| - 1];
      SplitLast(later);
      ConcatAssoc(args, init, [last]);
      EmitStopsAtRaise(args, init, editorFilter);
      EmitSnoc(args + init, last, editorFilter);
    }
  }

  /** The sink receives exactly the filtered rows of the records handed over before the
      first raise, in the order they were handed over; the run fails iff some callback raises. */
  lemma {:induction false} EmitIsSelectedPrefix(args: seq<Option<Changeset>>, editorFilter: string)
    ensures Emit(args, editorFilter)
         == Emitted(Selected(args[..FirstRaise(args, editorFilter)], editorFilter),
                    FirstRaise(args, editorFilter) < |args|)
    decreases |args|
  {
    if args == [] {
      assert args[..0] == [];
    } else {
      var n := |args|;
      var init, last := args[..n - 1], args[n - 1];
      SplitLast(args);
      EmitIsSelectedPrefix(init, editorFilter);
      FirstRaiseSnoc(init, last, editorFilter);
      EmitSnoc(init, last, editorFilter);
      var k := FirstRaise(init, editorFilter);
      var w := WriteRow(last, editorFilter);
      if k < n - 1 {
        PrefixOfSnoc(init, last, k);
        assert Emit(args, editorFilter) == Emit(init, editorFilter);
        assert FirstRaise(args, editorFilter) == k;
      } else {
        PrefixWhole(init);
        SelectedAppend(init, last, editorFilter);
        PrefixOfSnoc(init, last, n - 1);
        PrefixWhole(args);
        assert Emit(init, editorFilter) == Emitted(Selected(init, editorFilter), false);
        assert Emit(args, editorFilter) == Emitted(Selected(init, editorFilter) + RowsOf(w), w.Raised?);
        if w.Raised? {
          assert FirstRaise(args, editorFilter) == n - 1;
          assert RowsOf(w) == [];
          AppendEmpty(Selected(init, editorFilter));
        } else {
          assert FirstRaise(args, editorFilter) == n;
        }
      }
    }
  }

  /** With the empty filter every record that does not raise is written. */
  lemma {:induction false} EmptyFilterSelectsAll(args: seq<Option<Changeset>>)
    requires forall i :: 0 <= i < |args| ==> !WriteRow(args[i], "").Raised?
    ensures |Selected(args, "")| == |args|
    ensures forall i :: 0 <= i < |args| ==> args[i].Some? && Selected(args, "")[i] == Cells(ToRow(args[i].value))
    decreases |args|
  {
    if args != [] {
      assert StartsWith(args[0].value.createdBy.value, "");
      EmptyFilterSelectsAll(args[1..]);
      forall i | 1 <= i < |args|
        ensures args[i].Some? && Selected(args, "")[i] == Cells(ToRow(args[i].value))
      {
        assert args[1..][i - 1] == args[i];
      }
    }
  }

  /** With the empty filter no record is filtered out: as long as no callback raises,
      every record handed over is written. */
  lemma {:induction false} EmptyFilterEmitsAll(args: seq<Option<Changeset>>)
    requires forall i :: 0 <= i < |args| ==> !WriteRow(args[i], "").Raised?
    ensures !Emit(args, "").failed
    ensures |Emit(args, "").rows| == |args|
  {
    EmitIsSelectedPrefix(args, "");
    var k := FirstRaise(args, "");
    assert k == |args|;
    PrefixWhole(args);
    EmptyFilterSelectsAll(args);
  }

  /** The editor filter on three created_by values: "OpenStop" keeps an OpenStop
      editor, drops JOSM, and drops a record that never got a created_by tag. */
  lemma OpenStopFilterExamples(c: Changeset)
    ensures WriteRow(Some(c.(createdBy := Some("OpenStopEditor/1.0"))), "OpenStop").Appended?
    ensures WriteRow(Some(c.(createdBy := Some("JOSM"))), "OpenStop") == Skipped
    ensures WriteRow(Some(c.(createdBy := Some(""))), "OpenStop") == Skipped
  {
    assert "OpenStopEditor/1.0"[..8] == "OpenStop";
  }

  /** `csv.writer` together with the `write` closure bound to one editor filter. */
  class CsvSink {
    var rows: seq<seq<string>>
    const editorFilter: string

    constructor (editorFilter: string)
      ensures this.editorFilter == editorFilter && rows == []
    {
      this.editorFilter := editorFilter;
      rows := [];
    }

    /** `csv_writer.writerow(Changeset.headerRow())`. */
    method WriteHeader()
      modifies this
      ensures rows == old(rows) + [HeaderRow()]
    {
      rows := rows + [HeaderRow()];
    }

    /** `write(changeset)`: append the record's row iff its created_by starts with the
        filter; `raised` reports the AttributeError on a missing record or created_by. */
    method Write(arg: Option<Changeset>) returns (raised: bool)
      modifies this
      ensures raised == WriteRow(arg, editorFilter).Raised?
      ensures rows == old(rows) + RowsOf(WriteRow(arg, editorFilter))
    {
      if arg.None? || arg.value.createdBy.None? {
        return true;
      }
      raised := false;
      if StartsWith(arg.value.createdBy.value, editorFilter) {
        rows := rows + [Cells(ToRow(arg.value))];
      }
    }
  }
}
