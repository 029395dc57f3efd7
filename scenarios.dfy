/**
 Four uploads worked through end to end, for any `parseFloat` that reads
 the numerals involved as expected: a pump renaming, a line dropped for its
 time, a line kept with value 0 for its unreadable value, and a short line
 renamed with the pump2 label and given the unit "Unknown". Each text is
 the two preamble lines "h1" and "h2", then the given fields joined by
 commas, then a final newline. The fields are pinned one by one, together
 with the fact that none holds a comma or a line break, so the text is
 the one spelled out in each lemma's comment.
 */
module Scenarios {
  import opened JsString
  import opened RowParser
  import opened BatchNormalizer

  /** The lines reaching the row rule for the text `"h1\nh2\n" + line + "\n"`. */
  lemma OneDataLine(line: string)
    requires '\n' !in line
    ensures DataLines("h1\nh2\n" + line + "\n") == [line, ""]
  {
    PreambleIgnored("h1", "h2", line + "\n");
    assert "h1\nh2\n" + line + "\n" == "h1" + "\n" + "h2" + "\n" + (line + "\n");
    SplitFirstField(line + "\n", line, "", '\n');
  }

  /**
   The batch of `"h1\nh2\n" + line + "\n"` is what the row rule makes of
   `line`: the empty line after the final newline has a single field and
   is dropped.
   */
  lemma OneDataLineBatch(line: string, row: string -> Option<Record>)
    requires '\n' !in line
    requires row("") == None
    ensures Normalize(DataLines("h1\nh2\n" + line + "\n"), row) ==
      if row(line).Some? then [row(line).value] else []
  {
    OneDataLine(line);
    var lines := [line, ""];
    assert lines[..1] == [line];
    assert lines[..1][..0] == [];
  }

  /** The empty line is dropped: it has a single field. */
  lemma EmptyLineDropped(pump1: string, pump2: string, parse: string -> Number)
    ensures Rule(pump1, pump2, parse)("") == None
  {
    assert |Split("", ',')| == 1;
  }

  /**
   An upload with one data line, written as its fields joined by commas:
   when no field holds a comma or a line break, the batch is the record
   those fields yield, if any.
   */
  lemma OneLineUpload(fields: seq<string>, pump1: string, pump2: string, parse: string -> Number)
    requires |fields| >= 1
    requires forall i :: 0 <= i < |fields| ==> ',' !in fields[i] && '\n' !in fields[i]
    ensures var rec := ParseFields(fields, pump1, pump2, parse);
      Normalize(DataLines("h1\nh2\n" + Join(fields, ',') + "\n"), Rule(pump1, pump2, parse)) ==
        if rec.Some? then [rec.value] else []
  {
    var line := Join(fields, ',');
    SplitJoin(fields, ',');
    JoinKeepsOut(fields, ',', '\n');
    EmptyLineDropped(pump1, pump2, parse);
    OneDataLineBatch(line, Rule(pump1, pump2, parse));
  }

  /** The fields "1.0", "x", "Pump1", "y", "2.5", "z", "mg/L", read with pump1 label "Glucose". */
  lemma GlucoseRow(fields: seq<string>, pump2: string, parse: string -> Number)
    requires |fields| == 7 && fields[0] == "1.0" && fields[2] == Pump1 && fields[4] == "2.5" && fields[6] == "mg/L"
    requires parse("1.0") == Num(1.0) && parse("2.5") == Num(2.5)
    ensures ParseFields(fields, "Glucose", pump2, parse) == Some(Record(RunId, 1.0, "Glucose", 2.5, "mg/L"))
  {
    assert Trim(fields[0]) == "1.0" by { TrimOfTrimmed("1.0"); }
    assert TrimmedField(fields, 2) == Some(Pump1) by { TrimOfTrimmed(Pump1); }
    assert TrimmedField(fields, 4) == Some("2.5") by { TrimOfTrimmed("2.5"); }
    assert TrimmedField(fields, 6) == Some("mg/L") by { TrimOfTrimmed("mg/L"); }
    assert "Glucose" != Pump2;
  }

  /** The upload of the fields "1.0", "x", "Pump1", "y", "2.5", "z", "mg/L" (the text "h1\nh2\n1.0,x,Pump1,y,2.5,z,mg/L\n") with pump1 label "Glucose" yields one record, renamed. */
  lemma GlucoseScenario(content: string, fields: seq<string>, pump2: string, parse: string -> Number)
    requires |fields| == 7 && fields[0] == "1.0" && fields[1] == "x" && fields[2] == "Pump1" && fields[3] == "y" && fields[4] == "2.5" && fields[5] == "z" && fields[6] == "mg/L"
    requires forall i :: 0 <= i < |fields| ==> ',' !in fields[i] && '\n' !in fields[i]
    requires content == "h1\nh2\n" + Join(fields, ',') + "\n"
    requires parse("1.0") == Num(1.0) && parse("2.5") == Num(2.5)
    ensures Normalize(DataLines(content), Rule("Glucose", pump2, parse)) == [Record(RunId, 1.0, "Glucose", 2.5, "mg/L")]
  {
    OneLineUpload(fields, "Glucose", pump2, parse);
    GlucoseRow(fields, pump2, parse);
  }

  /** Fields whose first is "abc", which is not a number, are skipped. */
  lemma BadTimeRow(fields: seq<string>, pump1: string, pump2: string, parse: string -> Number)
    requires |fields| >= 4 && fields[0] == "abc"
    requires parse("abc") == NaN
    ensures ParseFields(fields, pump1, pump2, parse) == None
  {
    TrimOfTrimmed("abc");
  }

  /** The upload of the fields "abc", "x", "Glycerol", "y", "2.5", "z", "mg/L" (the text "h1\nh2\nabc,x,Glycerol,y,2.5,z,mg/L\n") yields no record: the time is not a number. */
  lemma BadTimeScenario(content: string, fields: seq<string>, pump1: string, pump2: string, parse: string -> Number)
    requires |fields| == 7 && fields[0] == "abc" && fields[1] == "x" && fields[2] == "Glycerol" && fields[3] == "y" && fields[4] == "2.5" && fields[5] == "z" && fields[6] == "mg/L"
    requires forall i :: 0 <= i < |fields| ==> ',' !in fields[i] && '\n' !in fields[i]
    requires content == "h1\nh2\n" + Join(fields, ',') + "\n"
    requires parse("abc") == NaN
    ensures Normalize(DataLines(content), Rule(pump1, pump2, parse)) == []
  {
    OneLineUpload(fields, pump1, pump2, parse);
    BadTimeRow(fields, pump1, pump2, parse);
  }

  /** The fields "3.0", "x", "Temp", "y", "n/a", "z", "C", where "n/a" is not a number. */
  lemma BadValueRow(fields: seq<string>, pump1: string, pump2: string, parse: string -> Number)
    requires |fields| == 7 && fields[0] == "3.0" && fields[2] == "Temp" && fields[4] == "n/a" && fields[6] == "C"
    requires parse("3.0") == Num(3.0) && parse("n/a") == NaN
    ensures ParseFields(fields, pump1, pump2, parse) == Some(Record(RunId, 3.0, "Temp", 0.0, "C"))
  {
    assert Trim(fields[0]) == "3.0" by { TrimOfTrimmed("3.0"); }
    assert TrimmedField(fields, 2) == Some("Temp") by { TrimOfTrimmed("Temp"); }
    assert TrimmedField(fields, 4) == Some("n/a") by { TrimOfTrimmed("n/a"); }
    assert TrimmedField(fields, 6) == Some("C") by { TrimOfTrimmed("C"); }
    assert "Temp" != Pump1 && "Temp" != Pump2;
  }

  /** The upload of the fields "3.0", "x", "Temp", "y", "n/a", "z", "C" (the text "h1\nh2\n3.0,x,Temp,y,n/a,z,C\n") yields one record with value 0: the value is not a number. */
  lemma BadValueScenario(content: string, fields: seq<string>, pump1: string, pump2: string, parse: string -> Number)
    requires |fields| == 7 && fields[0] == "3.0" && fields[1] == "x" && fields[2] == "Temp" && fields[3] == "y" && fields[4] == "n/a" && fields[5] == "z" && fields[6] == "C"
    requires forall i :: 0 <= i < |fields| ==> ',' !in fields[i] && '\n' !in fields[i]
    requires content == "h1\nh2\n" + Join(fields, ',') + "\n"
    requires parse("3.0") == Num(3.0) && parse("n/a") == NaN
    ensures Normalize(DataLines(content), Rule(pump1, pump2, parse)) == [Record(RunId, 3.0, "Temp", 0.0, "C")]
  {
    OneLineUpload(fields, pump1, pump2, parse);
    BadValueRow(fields, pump1, pump2, parse);
  }

  /** The fields "4.0", "x", "Pump2", "y", "7", read with pump2 label "Acid". */
  lemma AcidRow(fields: seq<string>, pump1: string, parse: string -> Number)
    requires |fields| == 5 && fields[0] == "4.0" && fields[2] == Pump2 && fields[4] == "7"
    requires parse("4.0") == Num(4.0) && parse("7") == Num(7.0)
    ensures ParseFields(fields, pump1, "Acid", parse) == Some(Record(RunId, 4.0, "Acid", 7.0, Unknown))
  {
    assert Trim(fields[0]) == "4.0" by { TrimOfTrimmed("4.0"); }
    assert TrimmedField(fields, 2) == Some(Pump2) by { TrimOfTrimmed(Pump2); }
    assert TrimmedField(fields, 4) == Some("7") by { TrimOfTrimmed("7"); }
    assert Pump2 != Pump1;
  }

  /**
   The upload of the fields "4.0", "x", "Pump2", "y", "7" (the text
   "h1\nh2\n4.0,x,Pump2,y,7\n") with pump2 label "Acid" yields one
   record: "Pump2" is renamed whatever the pump1 label, and the missing unit
   becomes "Unknown".
   */
  lemma AcidScenario(content: string, fields: seq<string>, pump1: string, parse: string -> Number)
    requires |fields| == 5 && fields[0] == "4.0" && fields[1] == "x" && fields[2] == "Pump2" && fields[3] == "y" && fields[4] == "7"
    requires forall i :: 0 <= i < |fields| ==> ',' !in fields[i] && '\n' !in fields[i]
    requires content == "h1\nh2\n" + Join(fields, ',') + "\n"
    requires parse("4.0") == Num(4.0) && parse("7") == Num(7.0)
    ensures Normalize(DataLines(content), Rule(pump1, "Acid", parse)) == [Record(RunId, 4.0, "Acid", 7.0, Unknown)]
  {
    OneLineUpload(fields, pump1, "Acid", parse);
    AcidRow(fields, pump1, parse);
  }
}
