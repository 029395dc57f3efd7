/**
 The batch step of the `/upload` handler: the uploaded text is split into
 lines, the two preamble lines are dropped, every remaining line goes
 through `ParseRow`, and the kept records are pushed, in order, onto the
 batch handed to the bulk insert. The insert is skipped for an empty batch.

 The batch specification `Normalize` and its lemmas are stated for any row
 rule `row` (what one line yields); the handler's rule is `Rule`, which is
 `ParseRow` with the operator's pump labels and `parseFloat`.
 */
module BatchNormalizer {
  import opened JsString
  import opened RowParser

  /** `line => ParseRow(line, pump1, pump2, parse)`. */
  function Rule(pump1: string, pump2: string, parse: string -> Number): (row: string -> Option<Record>)
  {
    line => ParseRow(line, pump1, pump2, parse)
  }

  /**
   `fileContent.split("\n").slice(2)`: the lines after the two-line
   preamble; none when the text has two lines or fewer.
   */
  function DataLines(content: string): (lines: seq<string>)
    ensures |Split(content, '\n')| <= 2 ==> lines == []
    ensures |Split(content, '\n')| > 2 ==> Split(content, '\n')[..2] + lines == Split(content, '\n')
  {
    var all := Split(content, '\n');
    if |all| <= 2 then [] else all[2..]
  }

  /** The batch a sequence of lines yields: one record per kept line, never more records than lines. */
  function Normalize(lines: seq<string>, row: string -> Option<Record>): (batch: seq<Record>)
    ensures |batch| <= |lines|
  {
    if lines == [] then []
    else
      var init := Normalize(lines[..|lines| - 1], row);
      match row(lines[|lines| - 1])
      case None => init
      case Some(rec) => init + [rec]
  }

  /**
   The `for` loop over `lines` that pushes onto `dataBatch`, with `continue`
   for a skipped line. Its result is the batch `Normalize` specifies.
   */
  method NormalizeBatch(lines: seq<string>, pump1: string, pump2: string, parse: string -> Number)
    returns (dataBatch: seq<Record>)
    ensures dataBatch == Normalize(lines, Rule(pump1, pump2, parse))
  {
    ghost var row := Rule(pump1, pump2, parse);
    dataBatch := [];
    for i := 0 to |lines|
      invariant dataBatch == Normalize(lines[..i], row)
    {
      assert lines[..i + 1][..i] == lines[..i];
      var record := ParseRow(lines[i], pump1, pump2, parse);
      if record.None? {
        continue;
      }
      dataBatch := dataBatch + [record.value];
    }
    assert lines[..|lines|] == lines;
  }

  /**
   The parsing part of the `/upload` handler. Returns what the bulk insert
   is called with, or `None` when the batch is empty and the insert is
   skipped; an empty batch is not an error. A batch never has more records
   than the text has lines after the preamble.
   */
  method Upload(content: string, pump1: string, pump2: string, parse: string -> Number)
    returns (insert: Option<seq<Record>>)
    ensures insert.None? <==> Normalize(DataLines(content), Rule(pump1, pump2, parse)) == []
    ensures insert.Some? ==> insert.value == Normalize(DataLines(content), Rule(pump1, pump2, parse))
    ensures insert.Some? ==> 0 < |insert.value| <= |Split(content, '\n')| - 2
  {
    var lines := DataLines(content);
    var dataBatch := NormalizeBatch(lines, pump1, pump2, parse);
    if |dataBatch| > 0 {
      insert := Some(dataBatch);
    } else {
      insert := None;
    }
  }

  /**
   The indices of the kept lines, in increasing order: every listed
   line is kept and every kept line is listed.
   */
  function Kept(lines: seq<string>, row: string -> Option<Record>): (idx: seq<nat>)
    ensures forall k :: 0 <= k < |idx| ==> idx[k] < |lines| && row(lines[idx[k]]).Some?
    ensures forall k, l :: 0 <= k < l < |idx| ==> idx[k] < idx[l]
    ensures forall j :: 0 <= j < |lines| && row(lines[j]).Some? ==> j in idx
  {
    if lines == [] then []
    else
      var init := lines[..|lines| - 1];
      var front := Kept(init, row);
      assert forall j :: 0 <= j < |init| ==> init[j] == lines[j];
      if row(lines[|lines| - 1]).Some? then front + [|lines| - 1] else front
  }

  /**
   The batch is exactly the kept lines, each mapped by the row rule, in
   input order: no reordering, no merging of equal lines, one record per
   kept line.
   */
  lemma {:induction false} NormalizeIsKeptInOrder(lines: seq<string>, row: string -> Option<Record>)
    ensures BatchIsKept(lines, row)
  {
    if lines != [] {
      NormalizeIsKeptInOrder(lines[..|lines| - 1], row);
      KeptInOrderStep(lines, row);
    }
  }

  /** The `k`-th record of the batch comes from the `k`-th kept line. */
  ghost predicate BatchIsKept(lines: seq<string>, row: string -> Option<Record>) {
    var batch := Normalize(lines, row);
    var idx := Kept(lines, row);
    && |batch| == |idx|
    && forall k :: 0 <= k < |idx| ==> batch[k] == row(lines[idx[k]]).value
  }

  /** The inductive step of `NormalizeIsKeptInOrder`: the last line either adds a record at the end or adds nothing. */
  lemma KeptInOrderStep(lines: seq<string>, row: string -> Option<Record>)
    requires lines != [] && BatchIsKept(lines[..|lines| - 1], row)
    ensures BatchIsKept(lines, row)
  {
    var init := lines[..|lines| - 1];
    var front := Kept(init, row);
    var frontBatch := Normalize(init, row);
    var batch := Normalize(lines, row);
    var idx := Kept(lines, row);
    if row(lines[|lines| - 1]).Some? {
      assert batch == frontBatch + [row(lines[|lines| - 1]).value];
      assert idx == front + [|lines| - 1];
      forall k | 0 <= k < |idx| ensures batch[k] == row(lines[idx[k]]).value {
        if k < |front| {
          assert batch[k] == frontBatch[k] && idx[k] == front[k];
          assert init[front[k]] == lines[front[k]];
        }
      }
    } else {
      assert batch == frontBatch && idx == front;
      assert forall k :: 0 <= k < |front| ==> init[front[k]] == lines[front[k]];
    }
  }

  /** Lines are processed independently: the batch of two texts put together is the two batches put together. */
  lemma {:induction false} NormalizeAppend(a: seq<string>, b: seq<string>, row: string -> Option<Record>)
    ensures Normalize(a + b, row) == Normalize(a, row) + Normalize(b, row)
  {
    if b == [] {
      assert a + b == a;
    } else {
      var b' := b[..|b| - 1];
      NormalizeAppend(a, b', row);
      assert (a + b)[..|a + b| - 1] == a + b';
      assert (a + b)[|a + b| - 1] == b[|b| - 1];
    }
  }

  /** The batch is empty exactly when no line is kept. */
  lemma {:induction false} NormalizeEmptyIff(lines: seq<string>, row: string -> Option<Record>)
    ensures Normalize(lines, row) == [] <==> forall j :: 0 <= j < |lines| ==> row(lines[j]).None?
  {
    if lines != [] {
      var init := lines[..|lines| - 1];
      NormalizeEmptyIff(init, row);
      assert forall j :: 0 <= j < |init| ==> init[j] == lines[j];
    }
  }

  /** Every record of an upload's batch is filed under the fixed run `RunId`. */
  lemma BatchFiledUnderRun(lines: seq<string>, pump1: string, pump2: string, parse: string -> Number)
    ensures var batch := Normalize(lines, Rule(pump1, pump2, parse));
      forall k :: 0 <= k < |batch| ==> batch[k].runId == RunId
  {
    NormalizeIsKeptInOrder(lines, Rule(pump1, pump2, parse));
  }

  /**
   The two preamble lines never contribute a record, whatever they hold:
   the lines that reach the row rule for `h1 + "\n" + h2 + "\n" + body`
   are the lines of `body`.
   */
  lemma PreambleIgnored(h1: string, h2: string, body: string)
    requires '\n' !in h1 && '\n' !in h2
    ensures DataLines(h1 + "\n" + h2 + "\n" + body) == Split(body, '\n')
  {
    var content := h1 + "\n" + h2 + "\n" + body;
    var rest := h2 + "\n" + body;
    var lines := Split(body, '\n');
    assert Split(content, '\n') == [h1] + ([h2] + lines) by {
      assert content == h1 + ['\n'] + rest;
      assert rest == h2 + ['\n'] + body;
      SplitFirstField(content, h1, rest, '\n');
      SplitFirstField(rest, h2, body, '\n');
    }
    DropTwo(h1, h2, lines);
  }

  /** Dropping the first two elements of `[x] + ([y] + t)` leaves `t`. */
  lemma DropTwo<T>(x: T, y: T, t: seq<T>)
    ensures |[x] + ([y] + t)| == |t| + 2 && ([x] + ([y] + t))[2..] == t
  {
  }
}
