/**
 * The CHANNELS line as the script reads it, without a check on the sign of
 * the count: `joint.channels = parts[2:2 + n]` with Python's slice rules
 * (a negative stop counts from the end), and `channel_cursor += n`. A
 * negative count moves the cursor backwards, so later joints get slots that
 * earlier joints already own, or a joint gets slots beyond the total. The
 * parser in module Parser rejects a negative count instead
 * (`ParseError.NegativeChannelCount`), which is what `SlotsDisjoint` and
 * `ChannelSlotBound` rely on.
 */
module ChannelsAsWritten {
  import opened Text

  /** Python's `ws[lo:hi]` for `lo >= 0` and any `hi`. */
  function PySlice<T>(ws: seq<T>, lo: nat, hi: int): (r: seq<T>)
    ensures |r| <= |ws|
  {
    var h := if hi < 0 then hi + |ws| else hi;
    var stop := if h < 0 then 0 else if h > |ws| then |ws| else h;
    var start := if lo > |ws| then |ws| else lo;
    if start >= stop then [] else ws[start..stop]
  }

  /** For a count of 0 or more, Python's slice is the clamped slice the parser uses. */
  lemma PySliceNonNegative<T>(ws: seq<T>, n: nat)
    ensures PySlice(ws, 2, 2 + n) == Slice(ws, 2, 2 + n)
  {
  }

  /**
   * The slot ranges (start, number of labels) that a run of CHANNELS lines
   * gives their joints, each line given as its words and its count, with
   * the cursor starting at `cursor`.
   */
  function SlotRanges(decls: seq<(seq<string>, int)>, cursor: int): (r: seq<(int, nat)>)
    ensures |r| == |decls|
  {
    if decls == [] then []
    else
      var ws, n := decls[0].0, decls[0].1;
      [(cursor, |PySlice(ws, 2, 2 + n)|)] + SlotRanges(decls[1..], cursor + n)
  }

  /** `channel_cursor` after the run: the sum of the counts. */
  function FinalCursor(decls: seq<(seq<string>, int)>, cursor: int): int
  {
    if decls == [] then cursor else FinalCursor(decls[1..], cursor + decls[0].1)
  }

  /**
   * "CHANNELS 3 Xrotation Yrotation Zrotation", "CHANNELS -2",
   * "CHANNELS 3 Xrotation Yrotation Zrotation": the first joint owns slots
   * 0..2 and the third 1..3, so patching one overwrites the other.
   */
  lemma NegativeCountOverlaps()
    ensures var a := ["CHANNELS", "3", "Xrotation", "Yrotation", "Zrotation"];
            var r := SlotRanges([(a, 3), (["CHANNELS", "-2"], -2), (a, 3)], 0);
            && r[0] == (0, 3) && r[2] == (1, 3)
            && r[0].0 <= r[2].0 < r[0].0 + r[0].1
  {
    var a := ["CHANNELS", "3", "Xrotation", "Yrotation", "Zrotation"];
    var b := ["CHANNELS", "-2"];
    var decls := [(a, 3), (b, -2), (a, 3)];
    assert PySlice(a, 2, 5) == a[2..5];
    assert PySlice(b, 2, 0) == [];
    assert decls[1..] == [(b, -2), (a, 3)] && decls[1..][1..] == [(a, 3)];
    assert SlotRanges([(a, 3)], 1) == [(1, 3)];
    assert SlotRanges([(b, -2), (a, 3)], 3) == [(3, 0), (1, 3)];
  }

  /**
   * "CHANNELS -3 Xrotation Yrotation Zrotation": the slice `parts[2:-1]`
   * counts its stop from the end and takes two labels, while the cursor
   * ends at -3, so the joint's slots run past the total.
   */
  lemma NegativeCountExceedsTotal()
    ensures var a := ["CHANNELS", "-3", "Xrotation", "Yrotation", "Zrotation"];
            var r := SlotRanges([(a, -3)], 0);
            && |r| == 1 && r[0] == (0, 2) && FinalCursor([(a, -3)], 0) == -3
            && r[0].0 + r[0].1 > FinalCursor([(a, -3)], 0)
  {
    var a := ["CHANNELS", "-3", "Xrotation", "Yrotation", "Zrotation"];
    assert PySlice(a, 2, -1) == a[2..4];
  }
}
