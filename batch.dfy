/** The run of `main`: walk the fiscal-year folders, keep the partitions that
    were found, concatenate them and summarise the result. */
module Batch {
  import opened Wrappers
  import opened Schema
  import opened Cleaning
  import opened Summaries

  /** What a successful run produces: the combined table (the exported file) and its summary. */
  datatype Report = Report(combined: Table, summary: Summary)

  /** The `frames` list after walking `labels` in order, or the error that stopped the walk.
      `glob` gives the listing of each folder. */
  function CollectFrames(p: Parsers, glob: string -> seq<SourceFile>, labels: seq<string>): (r: Result<seq<Table>, RunError>)
    ensures r.Ok? ==> |r.value| <= |labels|
    ensures r.Err? ==> r.error.MissingColumns?
    decreases |labels|
  {
    if labels == [] then Ok([])
    else
      match CollectFrames(p, glob, labels[..|labels| - 1])
      case Err(e) => Err(e)
      case Ok(frames) =>
        match ProcessFy(p, glob(labels[|labels| - 1]))
        case Err(e) => Err(e)
        case Ok(None) => Ok(frames)
        case Ok(Some(df)) => Ok(frames + [df])
  }

  /** Total number of rows of a list of tables. */
  function TotalRows(frames: seq<Table>): nat
  {
    if frames == [] then 0 else TotalRows(frames[..|frames| - 1]) + |frames[|frames| - 1]|
  }

  /** `pd.concat(frames, ignore_index=True)`: the rows of every table, table
      after table. The error pandas raises for an empty list is RunSpec's. */
  function Concat(frames: seq<Table>): (combined: Table)
    ensures |combined| == TotalRows(frames)
  {
    if frames == [] then [] else Concat(frames[..|frames| - 1]) + frames[|frames| - 1]
  }

  /** Row `j` of table `i` lands right after the rows of the tables before it:
      each table's rows keep their order and the tables keep theirs. */
  lemma {:induction false} ConcatKeepsRows(frames: seq<Table>, i: nat, j: nat)
    requires i < |frames| && j < |frames[i]|
    ensures TotalRows(frames[..i]) + j < |Concat(frames)|
    ensures Concat(frames)[TotalRows(frames[..i]) + j] == frames[i][j]
    decreases |frames|
  {
    var front := frames[..|frames| - 1];
    assert frames[..|frames| - 1] == front;
    if i < |front| {
      ConcatKeepsRows(front, i, j);
      assert front[..i] == frames[..i];
      assert front[i] == frames[i];
    } else {
      assert frames[..i] == front;
    }
  }

  /** Sum over a list of tables of each table's row count for year `y`. */
  function YearTotal(frames: seq<Table>, y: int): nat
  {
    if frames == [] then 0 else YearTotal(frames[..|frames| - 1], y) + CountYear(frames[|frames| - 1], y)
  }

  /** The concatenation holds, for each year, as many rows as all the tables
      together. */
  lemma {:induction false} CountYearConcat(frames: seq<Table>, y: int)
    ensures CountYear(Concat(frames), y) == YearTotal(frames, y)
    decreases |frames|
  {
    if frames != [] {
      var front := frames[..|frames| - 1];
      CountYearConcat(front, y);
      CountYearAppend(Concat(front), frames[|frames| - 1], y);
    }
  }

  /** What `main` does, as a function of the parsers and the folder listings. */
  function RunSpec(p: Parsers, glob: string -> seq<SourceFile>): (r: Result<Report, RunError>)
    ensures r.Err? && !r.error.NothingToConcatenate? ==> CollectFrames(p, glob, FyFolders) == Err(r.error)
    ensures r == Err(NothingToConcatenate) <==> CollectFrames(p, glob, FyFolders) == Ok([])
    ensures r.Ok? ==> CollectFrames(p, glob, FyFolders).Ok?
                      && |r.value.combined| == TotalRows(CollectFrames(p, glob, FyFolders).value)
                      && r.value.summary.total == |r.value.combined|
  {
    match CollectFrames(p, glob, FyFolders)
    case Err(e) => Err(e)
    case Ok(frames) =>
      if frames == [] then Err(NothingToConcatenate)
      else
        var combined := Concat(frames);
        Ok(Report(combined, Summarise(combined)))
  }

  /** An error met while walking a prefix of the labels ends the whole walk with that error. */
  lemma {:induction false} ErrorStopsTheWalk(p: Parsers, glob: string -> seq<SourceFile>, labels: seq<string>, k: nat)
    requires k <= |labels|
    requires CollectFrames(p, glob, labels[..k]).Err?
    ensures CollectFrames(p, glob, labels) == CollectFrames(p, glob, labels[..k])
    decreases |labels| - k
  {
    if k < |labels| {
      assert labels[..k + 1][..k] == labels[..k];
      ErrorStopsTheWalk(p, glob, labels, k + 1);
    } else {
      assert labels[..k] == labels;
    }
  }

  /** The tables a single folder contributes: its cleaned partition, or nothing when skipped. */
  function Found(p: Parsers, glob: string -> seq<SourceFile>, folder: string): (ts: seq<Table>)
    ensures |ts| <= 1
    ensures ts != [] ==> ProcessFy(p, glob(folder)) == Ok(Some(ts[0]))
    ensures ts == [] <==> !(ProcessFy(p, glob(folder)).Ok? && ProcessFy(p, glob(folder)).value.Some?)
  {
    match ProcessFy(p, glob(folder))
    case Ok(Some(t)) => [t]
    case _ => []
  }

  /** Reference definition, front to back: the partitions that were found, in folder order. */
  function FoundFrames(p: Parsers, glob: string -> seq<SourceFile>, labels: seq<string>): seq<Table>
  {
    if labels == [] then [] else Found(p, glob, labels[0]) + FoundFrames(p, glob, labels[1..])
  }

  /** No folder's first file lacks a required column. */
  ghost predicate NoFatal(p: Parsers, glob: string -> seq<SourceFile>, labels: seq<string>)
  {
    forall i :: 0 <= i < |labels| ==> ProcessFy(p, glob(labels[i])).Ok?
  }

  lemma {:induction false} FoundFramesSnoc(p: Parsers, glob: string -> seq<SourceFile>, labels: seq<string>, folder: string)
    ensures FoundFrames(p, glob, labels + [folder]) == FoundFrames(p, glob, labels) + Found(p, glob, folder)
  {
    if labels != [] {
      assert (labels + [folder])[1..] == labels[1..] + [folder];
      FoundFramesSnoc(p, glob, labels[1..], folder);
    } else {
      assert FoundFrames(p, glob, [folder]) == Found(p, glob, folder) + FoundFrames(p, glob, []);
    }
  }

  /** `frames` holds exactly the found partitions in folder order when no read
      fails; otherwise the walk ends with the error of the first failing folder. */
  lemma {:induction false} CollectFramesIsFoundFrames(p: Parsers, glob: string -> seq<SourceFile>, labels: seq<string>)
    ensures NoFatal(p, glob, labels) ==> CollectFrames(p, glob, labels) == Ok(FoundFrames(p, glob, labels))
    ensures !NoFatal(p, glob, labels) ==> CollectFrames(p, glob, labels).Err?
    ensures !NoFatal(p, glob, labels) ==>
              exists k :: 0 <= k < |labels| && ProcessFy(p, glob(labels[k])) == Err(CollectFrames(p, glob, labels).error)
                          && forall i :: 0 <= i < k ==> ProcessFy(p, glob(labels[i])).Ok?
    decreases |labels|
  {
    if labels != [] {
      var front := labels[..|labels| - 1];
      var last := labels[|labels| - 1];
      assert labels == front + [last];
      CollectFramesIsFoundFrames(p, glob, front);
      if NoFatal(p, glob, front) {
        FoundFramesSnoc(p, glob, front, last);
        if NoFatal(p, glob, labels) {
          match ProcessFy(p, glob(last)) {
            case Ok(None) =>
              assert Found(p, glob, last) == [];
              assert FoundFrames(p, glob, front) + [] == FoundFrames(p, glob, front);
            case Ok(Some(t)) =>
              assert Found(p, glob, last) == [t];
          }
        } else {
          assert ProcessFy(p, glob(labels[|labels| - 1])).Err?;
        }
      } else {
        var k :| 0 <= k < |front| && ProcessFy(p, glob(front[k])) == Err(CollectFrames(p, glob, front).error)
                 && forall i :: 0 <= i < k ==> ProcessFy(p, glob(front[i])).Ok?;
        assert labels[k] == front[k];
        assert forall i :: 0 <= i < k ==> labels[i] == front[i];
      }
    }
  }

  /** A folder whose listing is empty contributes nothing and the walk goes on. */
  lemma {:induction false} SkippedPartitionAddsNothing(p: Parsers, glob: string -> seq<SourceFile>, before: seq<string>, folder: string, after: seq<string>)
    requires glob(folder) == []
    ensures CollectFrames(p, glob, before + [folder] + after) == CollectFrames(p, glob, before + after)
    decreases |after|
  {
    if after == [] {
      assert before + [folder] + after == before + [folder];
      assert (before + [folder])[..|before|] == before;
      assert before + after == before;
    } else {
      var front := after[..|after| - 1];
      SkippedPartitionAddsNothing(p, glob, before, folder, front);
      assert (before + [folder] + after)[..|before + [folder] + after| - 1] == before + [folder] + front;
      assert (before + after)[..|before + after| - 1] == before + front;
    }
  }

  /** With no fatal read, no partition is found exactly when every listing is empty. */
  lemma {:induction false} NoFramesIffNoFiles(p: Parsers, glob: string -> seq<SourceFile>, labels: seq<string>)
    ensures (forall i :: 0 <= i < |labels| ==> glob(labels[i]) == []) ==> NoFatal(p, glob, labels)
    ensures NoFatal(p, glob, labels) ==>
              (FoundFrames(p, glob, labels) == [] <==> forall i :: 0 <= i < |labels| ==> glob(labels[i]) == [])
  {
    if labels != [] {
      NoFramesIffNoFiles(p, glob, labels[1..]);
      assert forall i :: 1 <= i < |labels| ==> labels[i] == labels[1..][i - 1];
      assert NoFatal(p, glob, labels) ==> NoFatal(p, glob, labels[1..]) by {
        if NoFatal(p, glob, labels) {
          forall i | 0 <= i < |labels[1..]| ensures ProcessFy(p, glob(labels[1..][i])).Ok? {
            assert labels[1..][i] == labels[i + 1];
          }
        }
      }
    }
  }

  /** A run ends with NothingToConcatenate exactly when no folder lists a file. */
  lemma RunFailsIffNoPartitionFound(p: Parsers, glob: string -> seq<SourceFile>)
    ensures RunSpec(p, glob) == Err(NothingToConcatenate) <==>
              forall i :: 0 <= i < |FyFolders| ==> glob(FyFolders[i]) == []
  {
    CollectFramesIsFoundFrames(p, glob, FyFolders);
    NoFramesIffNoFiles(p, glob, FyFolders);
  }

  /** A successful run exports the found partitions concatenated in folder order,
      whose row count, overall and per fiscal year, is the sum of the partitions'
      row counts, with their summary. */
  lemma RunExportsFoundPartitions(p: Parsers, glob: string -> seq<SourceFile>)
    ensures RunSpec(p, glob).Ok? <==> NoFatal(p, glob, FyFolders) && FoundFrames(p, glob, FyFolders) != []
    ensures RunSpec(p, glob).Ok? ==>
              && RunSpec(p, glob).value.combined == Concat(FoundFrames(p, glob, FyFolders))
              && |RunSpec(p, glob).value.combined| == TotalRows(FoundFrames(p, glob, FyFolders))
              && RunSpec(p, glob).value.summary == Summarise(RunSpec(p, glob).value.combined)
    ensures RunSpec(p, glob).Ok? ==>
              forall y :: CountYear(RunSpec(p, glob).value.combined, y) == YearTotal(FoundFrames(p, glob, FyFolders), y)
  {
    CollectFramesIsFoundFrames(p, glob, FyFolders);
    forall y
      ensures RunSpec(p, glob).Ok? ==>
                CountYear(RunSpec(p, glob).value.combined, y) == YearTotal(FoundFrames(p, glob, FyFolders), y)
    {
      CountYearConcat(FoundFrames(p, glob, FyFolders), y);
    }
  }

  /** `main`: the loop over FY_FOLDERS that appends each found partition to
      `frames`, then the concatenation and the summary. */
  method Run(p: Parsers, glob: string -> seq<SourceFile>) returns (r: Result<Report, RunError>)
    ensures r == RunSpec(p, glob)
  {
    var frames: seq<Table> := [];
    var i := 0;
    while i < |FyFolders|
      invariant 0 <= i <= |FyFolders|
      invariant CollectFrames(p, glob, FyFolders[..i]) == Ok(frames)
    {
      var fy := FyFolders[i];
      var df := ProcessFy(p, glob(fy));
      assert FyFolders[..i + 1][..i] == FyFolders[..i];
      match df {
        case Err(e) =>
          ErrorStopsTheWalk(p, glob, FyFolders, i + 1);
          return Err(e);
        case Ok(None) =>
        case Ok(Some(t)) =>
          frames := frames + [t];
      }
      i := i + 1;
    }
    assert FyFolders[..i] == FyFolders;
    if frames == [] {
      return Err(NothingToConcatenate);
    }
    var combined := Concat(frames);
    r := Ok(Report(combined, Summarise(combined)));
  }
}
