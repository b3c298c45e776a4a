/**
 * `write_bvh_with_new_motion`, as the sequence of strings it writes: the
 * original text's lines before the first MOTION line, unchanged, then a new
 * motion section made from the object's frame count, frame time and motion
 * table. Number formatting (`:.6f`) is the parameter `fmt`.
 */
module Writer {
  import opened Basics
  import opened Text
  import opened Hierarchy
  import opened Parser

  datatype WriteError = NoMotionLine

  /** The test the writer uses to find the motion section: `ln.strip().upper().startswith("MOTION")`. */
  predicate IsMotionLine(ln: string) {
    StartsWith(Upper(Strip(ln)), "MOTION")
  }

  /** Position of the first MOTION line, if any. */
  function FirstMotionLine(raw: seq<string>): (m: Option<nat>)
    ensures m.Some? ==> m.value < |raw| && IsMotionLine(raw[m.value])
    ensures m.Some? ==> forall i :: 0 <= i < m.value ==> !IsMotionLine(raw[i])
    ensures m.None? <==> forall i :: 0 <= i < |raw| ==> !IsMotionLine(raw[i])
  {
    if raw == [] then None
    else if IsMotionLine(raw[0]) then Some(0)
    else
      match FirstMotionLine(raw[1..])
      case None => None
      case Some(k) => Some(k + 1)
  }

  /** The search loop: the first index whose line is a MOTION line. */
  method FindMotion(raw: seq<string>) returns (m: Option<nat>)
    ensures m == FirstMotionLine(raw)
  {
    m := None;
    for i := 0 to |raw|
      invariant forall i' :: 0 <= i' < i ==> !IsMotionLine(raw[i'])
    {
      if IsMotionLine(raw[i]) {
        m := Some(i);
        break;
      }
    }
  }

  /** The formatted values of a frame. */
  function Formatted<V>(row: seq<V>, fmt: V -> string): seq<string>
  {
    seq(|row|, k requires 0 <= k < |row| => fmt(row[k]))
  }

  /** One frame line: the formatted values, separated by single spaces, then a newline. */
  function RowLine<V>(row: seq<V>, fmt: V -> string): string
  {
    Join(Formatted(row, fmt), " ") + "\n"
  }

  /** The frame lines, one per row, in order. */
  function RowLines<V>(rows: seq<seq<V>>, fmt: V -> string): seq<string>
  {
    if rows == [] then [] else RowLines(rows[..|rows| - 1], fmt) + [RowLine(rows[|rows| - 1], fmt)]
  }

  /** The three lines that open the new motion section. */
  function MotionHead<V>(frames: int, frameTime: V, fmt: V -> string): seq<string>
  {
    ["MOTION\n", "Frames: " + IntToString(frames) + "\n", "Frame Time: " + fmt(frameTime) + "\n"]
  }

  /** The new motion section: its three opening lines, then one line per frame. */
  function MotionText<V>(frames: int, frameTime: V, rows: seq<seq<V>>, fmt: V -> string): seq<string>
  {
    MotionHead(frames, frameTime, fmt) + RowLines(rows, fmt)
  }

  /**
   * `write_bvh_with_new_motion(original_text, bvh, out_path)`, returning
   * what it writes instead of writing a file: fails when the original text
   * has no MOTION line, and otherwise keeps every line before the first one.
   */
  method WriteWithNewMotion<V>(originalText: string, bvh: Bvh<V>, fmt: V -> string) returns (r: Result<seq<string>, WriteError>)
    ensures var raw := SplitLines(originalText);
            var m := FirstMotionLine(raw);
            && (r.Err? <==> m.None?)
            && (r.Err? ==> r.error == NoMotionLine)
            && (r.Ok? ==> r.value == raw[..m.value] + MotionText(bvh.frames, bvh.frameTime, bvh.motion, fmt))
  {
    var raw := SplitLines(originalText);
    var motionIdx := FindMotion(raw);
    if motionIdx.None? {
      return Err(NoMotionLine);
    }
    var header := raw[..motionIdx.value];
    var rows := FrameLines(bvh.motion, fmt);
    var body := MotionHead(bvh.frames, bvh.frameTime, fmt) + rows;
    assert body == MotionText(bvh.frames, bvh.frameTime, bvh.motion, fmt);
    return Ok(header + body);
  }

  /** The loop `for frame_vals in bvh.motion`: one line per frame, in order. */
  method FrameLines<V>(motion: seq<seq<V>>, fmt: V -> string) returns (out: seq<string>)
    ensures out == RowLines(motion, fmt)
  {
    out := [];
    for f := 0 to |motion|
      invariant out == RowLines(motion[..f], fmt)
    {
      assert motion[..f + 1][..f] == motion[..f];
      out := out + [RowLine(motion[f], fmt)];
    }
    assert motion[..|motion|] == motion;
  }

  /** The header the writer keeps is the original text, verbatim, up to the first MOTION line. */
  lemma HeaderIsPrefix(text: string, m: nat)
    requires m <= |SplitLines(text)|
    ensures StartsWith(text, Concat(SplitLines(text)[..m]))
  {
    var raw := SplitLines(text);
    assert raw == raw[..m] + raw[m..];
    ConcatAppend(raw[..m], raw[m..]);
  }

  /** A line made of words joined by single spaces, ended by "\n". */
  function WordLine(ws: seq<string>): string
  {
    Join(ws, " ") + "\n"
  }

  /** Such a line is one line to `splitlines`, and the parser reads its words back after stripping it. */
  lemma WordLineReadsBack(ws: seq<string>)
    requires ws != [] && forall i :: 0 <= i < |ws| ==> IsWord(ws[i])
    ensures EndsLine(WordLine(ws))
    ensures Strip(WordLine(ws)) == Join(ws, " ") && Join(ws, " ") != []
    ensures Words(Join(ws, " ")) == ws
  {
    var j := Join(ws, " ");
    JoinEnds(ws);
    StripLine(j);
    WordsOfJoin(ws);
    var l := j + "\n";
    forall i | 0 <= i < |l| - 1
      ensures !IsLineBreak(l[i])
    {
      assert l[i] == j[i];
    }
  }

  /** `str(n)` is a single word: digits, possibly after a minus sign. */
  lemma IntToStringIsWord(n: int)
    ensures IsWord(IntToString(n))
  {
    var s := IntToString(n);
    forall i | 0 <= i < |s|
      ensures !IsSpace(s[i])
    {
      if i > 0 {
        assert IsDigit(s[i]);
      }
    }
  }

  /** Every value of every frame is written as one word that reads back as that value. */
  ghost predicate WritesBack<V>(rows: seq<seq<V>>, fmt: V -> string, toValue: string -> Option<V>)
  {
    forall f, k :: 0 <= f < |rows| && 0 <= k < |rows[f]| ==> IsWord(fmt(rows[f][k])) && toValue(fmt(rows[f][k])) == Some(rows[f][k])
  }

  /** The words of each line of the new motion section. */
  function MotionWords<V>(frames: int, frameTime: V, rows: seq<seq<V>>, fmt: V -> string): seq<seq<string>>
  {
    [["MOTION"], ["Frames:", IntToString(frames)], ["Frame", "Time:", fmt(frameTime)]]
      + seq(|rows|, f requires 0 <= f < |rows| => Formatted(rows[f], fmt))
  }

  function WordLines(wss: seq<seq<string>>): seq<string>
  {
    seq(|wss|, i requires 0 <= i < |wss| => WordLine(wss[i]))
  }

  function Joined(wss: seq<seq<string>>): seq<string>
  {
    seq(|wss|, i requires 0 <= i < |wss| => Join(wss[i], " "))
  }

  /** Every line holds at least one word, and only words. */
  ghost predicate AllWords(wss: seq<seq<string>>)
  {
    forall i, k :: 0 <= i < |wss| && 0 <= k < |wss[i]| ==> IsWord(wss[i][k])
  }

  /** Lines of words, written out and read back through `splitlines` and the parser's cleaning, come back joined. */
  lemma WordLinesRead(wss: seq<seq<string>>)
    requires forall i :: 0 <= i < |wss| ==> wss[i] != []
    requires AllWords(wss)
    ensures CleanLines(SplitLines(Concat(WordLines(wss)))) == Joined(wss)
  {
    var ls := WordLines(wss);
    forall i | 0 <= i < |wss|
      ensures EndsLine(ls[i]) && Strip(ls[i]) == Join(wss[i], " ") && Strip(ls[i]) != []
    {
      WordLineReadsBack(wss[i]);
    }
    SplitLinesOfLines(ls);
    CleanLinesNoBlank(ls);
  }

  lemma JoinThree(a: string, b: string, c: string)
    ensures Join([a, b, c], " ") == a + " " + b + " " + c
  {
    assert [a, b, c][1..] == [b, c];
    assert [b, c][1..] == [c];
    assert Join([b, c], " ") == b + " " + c;
  }

  /** The new motion section is the word lines of `MotionWords`. */
  lemma MotionTextWords<V>(frames: int, frameTime: V, rows: seq<seq<V>>, fmt: V -> string)
    ensures MotionText(frames, frameTime, rows, fmt) == WordLines(MotionWords(frames, frameTime, rows, fmt))
  {
    var n, t := IntToString(frames), fmt(frameTime);
    var text := MotionText(frames, frameTime, rows, fmt);
    var wss := MotionWords(frames, frameTime, rows, fmt);
    RowLinesAt(rows, fmt);
    assert |text| == |wss|;
    forall i | 0 <= i < |text|
      ensures text[i] == WordLine(wss[i])
    {
      if i == 0 {
        assert Join(["MOTION"], " ") == "MOTION";
      } else if i == 1 {
        assert Join(["Frames:", n], " ") == "Frames: " + n;
      } else if i == 2 {
        JoinThree("Frame", "Time:", t);
        assert "Frame" + " " + "Time:" + " " + t == "Frame Time: " + t;
      } else {
        assert text[i] == RowLines(rows, fmt)[i - 3];
      }
    }
  }

  /** A written frame line holds the frame's values as words. */
  lemma FormattedWords<V>(row: seq<V>, fmt: V -> string, toValue: string -> Option<V>)
    requires forall k :: 0 <= k < |row| ==> IsWord(fmt(row[k])) && toValue(fmt(row[k])) == Some(row[k])
    ensures forall k :: 0 <= k < |row| ==> IsWord(Formatted(row, fmt)[k])
    ensures ToValues(Formatted(row, fmt), toValue) == Ok(row)
  {
    var r := ToValues(Formatted(row, fmt), toValue);
    assert r.Ok?;
    assert r.value == row;
  }

  lemma MotionWordsAreWords<V>(frames: int, frameTime: V, rows: seq<seq<V>>, fmt: V -> string, toValue: string -> Option<V>)
    requires forall f :: 0 <= f < |rows| ==> rows[f] != []
    requires IsWord(fmt(frameTime)) && WritesBack(rows, fmt, toValue)
    ensures var wss := MotionWords(frames, frameTime, rows, fmt);
            (forall i :: 0 <= i < |wss| ==> wss[i] != []) && AllWords(wss)
  {
    var wss := MotionWords(frames, frameTime, rows, fmt);
    IntToStringIsWord(frames);
    assert IsWord("MOTION") && IsWord("Frames:") && IsWord("Frame") && IsWord("Time:");
    forall i, k | 0 <= i < |wss| && 0 <= k < |wss[i]|
      ensures IsWord(wss[i][k])
    {
      if i >= 3 {
        FormattedWords(rows[i - 3], fmt, toValue);
      }
    }
  }

  /** Frame f of the table is written on line f of the row lines. */
  lemma {:induction false} RowLinesAt<V>(rows: seq<seq<V>>, fmt: V -> string)
    ensures |RowLines(rows, fmt)| == |rows|
    ensures forall f :: 0 <= f < |rows| ==> RowLines(rows, fmt)[f] == RowLine(rows[f], fmt)
  {
    if rows != [] {
      RowLinesAt(rows[..|rows| - 1], fmt);
    }
  }

  /** From line `start` on, line `start + g` is row g written out. */
  ghost predicate RowLinesFrom<V>(lines: seq<string>, start: nat, rows: seq<seq<V>>, fmt: V -> string)
  {
    forall g :: 0 <= g < |rows| ==> start + g < |lines| && lines[start + g] == Join(Formatted(rows[g], fmt), " ")
  }

  /** Reading frames back: from line `start` on, the lines are the written frames. */
  lemma {:induction false} FrameRowsReadBack<V>(lines: seq<string>, start: nat, f: nat, rows: seq<seq<V>>, width: int,
                                                fmt: V -> string, toValue: string -> Option<V>)
    requires f <= |rows| && start + |rows| <= |lines|
    requires RowLinesFrom(lines, start, rows, fmt)
    requires forall g :: 0 <= g < |rows| ==> |rows[g]| == width
    requires WritesBack(rows, fmt, toValue)
    ensures FrameRows(lines, start, f, |rows|, width, toValue) == Ok(rows[f..])
    decreases |rows| - f
  {
    if f < |rows| {
      FormattedWords(rows[f], fmt, toValue);
      WordsOfJoin(Formatted(rows[f], fmt));
      assert Words(lines[start + f]) == Formatted(rows[f], fmt);
      assert FrameRow(lines, start, f, width, toValue) == Ok(rows[f]);
      FrameRowsStep(lines, start, f, |rows|, width, toValue);
      FrameRowsReadBack(lines, start, f + 1, rows, width, fmt, toValue);
      assert rows[f..] == [rows[f]] + rows[f + 1..];
    }
  }

  /** The motion section read from lines 0, 1, 2 and the frame lines from 3 on. */
  lemma MotionSectionOfLines<V>(lines: seq<string>, frames: int, frameTime: V, rows: seq<seq<V>>, width: int,
                                toInt: string -> Option<int>, toValue: string -> Option<V>)
    requires 3 <= |lines| && StartsWith(lines[0], "MOTION") && StartsWith(lines[1], "Frames:") && StartsWith(lines[2], "Frame Time:")
    requires |Words(lines[1])| >= 2 && toInt(Words(lines[1])[1]) == Some(frames)
    requires |Words(lines[2])| >= 3 && toValue(Words(lines[2])[2]) == Some(frameTime)
    requires FrameRows(lines, 3, 0, frames, width, toValue) == Ok(rows)
    ensures MotionSection(lines, 0, width, toInt, toValue) == Ok(MotionData(frames, frameTime, rows))
  {
  }

  /**
   * The motion section the writer produces reads back, through the
   * parser's own line cleaning and motion reading, as the frame count,
   * frame time and motion table it was written from, provided every value
   * is written as a word that converts back to it and no frame is empty.
   */
  lemma MotionTextReadsBack<V>(frames: int, frameTime: V, rows: seq<seq<V>>, width: int, fmt: V -> string,
                               toInt: string -> Option<int>, toValue: string -> Option<V>)
    requires |rows| == RowsLeft(0, frames)
    requires (width > 0 || rows == []) && forall f :: 0 <= f < |rows| ==> |rows[f]| == width
    requires toInt(IntToString(frames)) == Some(frames)
    requires IsWord(fmt(frameTime)) && toValue(fmt(frameTime)) == Some(frameTime)
    requires WritesBack(rows, fmt, toValue)
    ensures MotionSection(CleanLines(SplitLines(Concat(MotionText(frames, frameTime, rows, fmt)))), 0, width, toInt, toValue)
            == Ok(MotionData(frames, frameTime, rows))
  {
    var wss := MotionWords(frames, frameTime, rows, fmt);
    MotionWordsAreWords(frames, frameTime, rows, fmt, toValue);
    MotionTextWords(frames, frameTime, rows, fmt);
    WordLinesRead(wss);
    var lines := Joined(wss);
    MotionLinesAt(frames, frameTime, rows, fmt);
    WordsOfJoin(wss[1]);
    WordsOfJoin(wss[2]);
    assert lines[1] == Join(wss[1], " ") && lines[2] == Join(wss[2], " ");
    MotionLinesReadBack(lines, frames, frameTime, rows, width, fmt, toInt, toValue);
  }

  /** The same, from motion lines whose words are those the writer put there. */
  lemma MotionLinesReadBack<V>(lines: seq<string>, frames: int, frameTime: V, rows: seq<seq<V>>, width: int,
                               fmt: V -> string, toInt: string -> Option<int>, toValue: string -> Option<V>)
    requires |lines| == 3 + |rows|
    requires StartsWith(lines[0], "MOTION") && StartsWith(lines[1], "Frames:") && StartsWith(lines[2], "Frame Time:")
    requires Words(lines[1]) == ["Frames:", IntToString(frames)]
    requires Words(lines[2]) == ["Frame", "Time:", fmt(frameTime)]
    requires RowLinesFrom(lines, 3, rows, fmt)
    requires |rows| == RowsLeft(0, frames)
    requires forall f :: 0 <= f < |rows| ==> |rows[f]| == width
    requires toInt(IntToString(frames)) == Some(frames)
    requires toValue(fmt(frameTime)) == Some(frameTime)
    requires WritesBack(rows, fmt, toValue)
    ensures MotionSection(lines, 0, width, toInt, toValue) == Ok(MotionData(frames, frameTime, rows))
  {
    if frames >= 0 {
      FrameRowsReadBack(lines, 3, 0, rows, width, fmt, toValue);
      assert rows[0..] == rows;
    }
    MotionSectionOfLines(lines, frames, frameTime, rows, width, toInt, toValue);
  }

  /** The lines of the new motion section as the parser sees them. */
  lemma MotionLinesAt<V>(frames: int, frameTime: V, rows: seq<seq<V>>, fmt: V -> string)
    ensures var lines := Joined(MotionWords(frames, frameTime, rows, fmt));
            && |lines| == 3 + |rows|
            && lines[0] == "MOTION" && StartsWith(lines[0], "MOTION")
            && StartsWith(lines[1], "Frames:") && StartsWith(lines[2], "Frame Time:")
            && RowLinesFrom(lines, 3, rows, fmt)
  {
    var wss := MotionWords(frames, frameTime, rows, fmt);
    var lines := Joined(wss);
    var n, t := IntToString(frames), fmt(frameTime);
    assert lines[0] == Join(["MOTION"], " ") == "MOTION";
    assert lines[1] == Join(["Frames:", n], " ") == "Frames:" + (" " + n);
    StartsWithConcat("Frames:", " " + n);
    JoinThree("Frame", "Time:", t);
    assert lines[2] == "Frame Time:" + (" " + t);
    StartsWithConcat("Frame Time:", " " + t);
  }
}
