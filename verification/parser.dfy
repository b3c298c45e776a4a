/**
 * `BVH._parse`: the recursive-descent parser over the trimmed lines, with
 * the running channel cursor threaded through the joint blocks, followed by
 * the motion section. The class `Bvh` holds what the Python object holds;
 * joints are kept in an arena (see module Hierarchy) and the name index
 * maps names to arena positions.
 */
module Parser {
  import opened Basics
  import opened Text
  import opened Hierarchy
  import opened Blocks

  /** The motion section as read from the lines. */
  datatype MotionData<V> = MotionData(frames: int, frameTime: V, rows: seq<seq<V>>)

  /** Number of rows `range(count)` yields when counting on from `f`. */
  function RowsLeft(f: nat, count: int): nat
  {
    if count > f then count - f else 0
  }

  /**
   * Frame `f`, read from line `start + f`: the line must exist, its words
   * must convert to numbers, and there must be exactly `width` of them.
   */
  function FrameRow<V>(lines: seq<string>, start: nat, f: nat, width: int,
                       toValue: string -> Option<V>): (r: Result<seq<V>, ParseError>)
    ensures start + f >= |lines| ==> r == Err(FrameTruncated(f))
    ensures start + f < |lines| ==>
              var vr := ToValues(Words(lines[start + f]), toValue);
              && (vr.Err? ==> r == Err(vr.error))
              && (vr.Ok? && |vr.value| != width ==> r == Err(FrameWidth(f, |vr.value|, width)))
              && (vr.Ok? && |vr.value| == width ==> r == Ok(vr.value))
    ensures r.Ok? ==> |r.value| == width && RowAt(lines, start + f, toValue, r.value)
    ensures r.Err? && r.error.FrameTruncated? ==> r.error.frame == f && start + f >= |lines|
    ensures r.Err? && r.error.FrameWidth? ==> r.error.frame == f && r.error.width as int != width
    ensures r.Err? ==> r.error.FrameTruncated? || r.error.FrameWidth? || r.error.BadNumber?
  {
    if start + f >= |lines| then Err(FrameTruncated(f))
    else
      var vr := ToValues(Words(lines[start + f]), toValue);
      if vr.Err? then Err(vr.error)
      else if |vr.value| != width then Err(FrameWidth(f, |vr.value|, width))
      else Ok(vr.value)
  }

  /**
   * Frame rows `f`, `f+1`, ... `count-1`, row `g` read from line `start + g`;
   * the first frame that cannot be read gives the error.
   */
  function FrameRows<V>(lines: seq<string>, start: nat, f: nat, count: int, width: int,
                        toValue: string -> Option<V>): (r: Result<seq<seq<V>>, ParseError>)
    ensures r.Ok? ==> |r.value| == RowsLeft(f, count)
    ensures r.Ok? ==> RowsAt(lines, start + f, width, toValue, r.value)
    ensures r.Err? && r.error.FrameTruncated? ==> f <= r.error.frame < count && start + r.error.frame >= |lines|
    ensures r.Err? && r.error.FrameWidth? ==> f <= r.error.frame < count && r.error.width as int != width
    ensures r.Err? ==> r.error.FrameTruncated? || r.error.FrameWidth? || r.error.BadNumber?
    decreases RowsLeft(f, count)
  {
    if f as int >= count then Ok([])
    else
      match FrameRow(lines, start, f, width, toValue)
      case Err(e) => Err(e)
      case Ok(row) =>
        var rr := FrameRows(lines, start, f + 1, count, width, toValue);
        if rr.Err? then rr
        else
          RowsAtCons(lines, start + f, width, toValue, row, rr.value);
          Ok([row] + rr.value)
  }

  /** Line `g` exists and reads as exactly the values `row`. */
  ghost predicate RowAt<V>(lines: seq<string>, g: nat, toValue: string -> Option<V>, row: seq<V>)
  {
    g < |lines| && ToValues(Words(lines[g]), toValue) == Ok(row)
  }

  /** Lines `first`, `first + 1`, ... read as the rows `rows`, each `width` values wide. */
  ghost predicate RowsAt<V>(lines: seq<string>, first: nat, width: int, toValue: string -> Option<V>, rows: seq<seq<V>>)
  {
    forall k :: 0 <= k < |rows| ==> |rows[k]| == width && RowAt(lines, first + k, toValue, rows[k])
  }

  lemma RowsAtCons<V>(lines: seq<string>, g: nat, width: int, toValue: string -> Option<V>, row: seq<V>, rest: seq<seq<V>>)
    requires |row| == width && RowAt(lines, g, toValue, row) && RowsAt(lines, g + 1, width, toValue, rest)
    ensures RowsAt(lines, g, width, toValue, [row] + rest)
  {
    var rows := [row] + rest;
    forall k | 0 <= k < |rows|
      ensures |rows[k]| == width && RowAt(lines, g + k, toValue, rows[k])
    {
      if k > 0 {
        assert rows[k] == rest[k - 1] && g + k == g + 1 + (k - 1);
      }
    }
  }

  /** Puts already-read rows in front of the rows still to come (or passes on their error). */
  function Prepend<V>(done: seq<seq<V>>, r: Result<seq<seq<V>>, ParseError>): Result<seq<seq<V>>, ParseError>
  {
    match r
    case Ok(rest) => Ok(done + rest)
    case Err(e) => Err(e)
  }

  lemma PrependNothing<V>(r: Result<seq<seq<V>>, ParseError>)
    ensures Prepend([], r) == r
  {
    if r.Ok? {
      assert [] + r.value == r.value;
    }
  }

  lemma PrependTwice<V>(a: seq<seq<V>>, b: seq<seq<V>>, r: Result<seq<seq<V>>, ParseError>)
    ensures Prepend(a, Prepend(b, r)) == Prepend(a + b, r)
  {
    if r.Ok? {
      assert a + (b + r.value) == (a + b) + r.value;
    }
  }

  /** One step of `FrameRows`: frame f is read, then the frames after it. */
  lemma FrameRowsStep<V>(lines: seq<string>, start: nat, f: nat, count: int, width: int, toValue: string -> Option<V>)
    requires f < count
    ensures var row := FrameRow(lines, start, f, width, toValue);
            && (row.Err? ==> FrameRows(lines, start, f, count, width, toValue) == Err(row.error))
            && (row.Ok? ==> FrameRows(lines, start, f, count, width, toValue)
                              == Prepend([row.value], FrameRows(lines, start, f + 1, count, width, toValue)))
  {
  }

  /** One pass of the frame loop, seen from the rows read so far. */
  lemma ReadOneFrame<V>(lines: seq<string>, start: nat, f: nat, count: int, width: int, toValue: string -> Option<V>,
                        done: seq<seq<V>>, spec: Result<seq<seq<V>>, ParseError>)
    requires f < count && spec == Prepend(done, FrameRows(lines, start, f, count, width, toValue))
    ensures var row := FrameRow(lines, start, f, width, toValue);
            && (row.Err? ==> spec == Err(row.error))
            && (row.Ok? ==> spec == Prepend(done + [row.value], FrameRows(lines, start, f + 1, count, width, toValue)))
  {
    FrameRowsStep(lines, start, f, count, width, toValue);
    var row := FrameRow(lines, start, f, width, toValue);
    if row.Ok? {
      PrependTwice(done, [row.value], FrameRows(lines, start, f + 1, count, width, toValue));
    }
  }

  /**
   * The motion section, starting at line `i`: "MOTION", "Frames: n",
   * "Frame Time: t", then `n` rows of `width` values each.
   */
  function MotionSection<V>(lines: seq<string>, i: nat, width: int,
                            toInt: string -> Option<int>, toValue: string -> Option<V>): (r: Result<MotionData<V>, ParseError>)
    ensures i < |lines| && !StartsWith(lines[i], "MOTION") ==> r == Err(NoMotion)
    ensures i + 1 < |lines| && StartsWith(lines[i], "MOTION") && !StartsWith(lines[i + 1], "Frames:") ==> r == Err(NoFrames)
    ensures r.Ok? ==> i + 2 < |lines| && StartsWith(lines[i], "MOTION") && StartsWith(lines[i + 1], "Frames:")
                      && StartsWith(lines[i + 2], "Frame Time:")
    ensures r.Ok? ==> |Words(lines[i + 1])| >= 2 && toInt(Words(lines[i + 1])[1]) == Some(r.value.frames)
    ensures r.Ok? ==> |Words(lines[i + 2])| >= 3 && toValue(Words(lines[i + 2])[2]) == Some(r.value.frameTime)
    ensures r.Ok? ==> |r.value.rows| == RowsLeft(0, r.value.frames)
    ensures r.Ok? ==> forall k :: 0 <= k < |r.value.rows| ==> |r.value.rows[k]| == width
    ensures (&& i + 2 < |lines| && StartsWith(lines[i], "MOTION") && StartsWith(lines[i + 1], "Frames:")
             && |Words(lines[i + 1])| >= 2 && toInt(Words(lines[i + 1])[1]).Some?
             && !StartsWith(lines[i + 2], "Frame Time:")) ==> r == Err(NoFrameTime)
    ensures r.Ok? ==> i + 3 + |r.value.rows| <= |lines|
    ensures r.Ok? ==> forall k :: 0 <= k < |r.value.rows| ==> RowAt(lines, i + 3 + k, toValue, r.value.rows[k])
  {
    if i >= |lines| then Err(OutOfLines)
    else if !StartsWith(lines[i], "MOTION") then Err(NoMotion)
    else if i + 1 >= |lines| then Err(OutOfLines)
    else if !StartsWith(lines[i + 1], "Frames:") then Err(NoFrames)
    else if |Words(lines[i + 1])| < 2 then Err(MissingToken(lines[i + 1]))
    else if toInt(Words(lines[i + 1])[1]).None? then Err(BadNumber(Words(lines[i + 1])[1]))
    else if i + 2 >= |lines| then Err(OutOfLines)
    else if !StartsWith(lines[i + 2], "Frame Time:") then Err(NoFrameTime)
    else if |Words(lines[i + 2])| < 3 then Err(MissingToken(lines[i + 2]))
    else if toValue(Words(lines[i + 2])[2]).None? then Err(BadNumber(Words(lines[i + 2])[2]))
    else
      var n := toInt(Words(lines[i + 1])[1]).value;
      var t := toValue(Words(lines[i + 2])[2]).value;
      var rows := FrameRows(lines, i + 3, 0, n, width, toValue);
      if rows.Err? then Err(rows.error)
      else
        assert RowsAt(lines, i + 3 + 0, width, toValue, rows.value);
        assert |rows.value| > 0 ==> RowAt(lines, i + 3 + 0 + (|rows.value| - 1), toValue, rows.value[|rows.value| - 1]);
        Ok(MotionData(n, t, rows.value))
  }

  /**
   * `_parse` as a function of the trimmed lines: the HIERARCHY and ROOT
   * lines, the root's block read from line 2 with the cursor at 0, then the
   * motion section with rows as wide as the final cursor.
   */
  function ParseLines<V>(lines: seq<string>, toInt: string -> Option<int>, toValue: string -> Option<V>, zero: V)
    : (r: Result<(Skeleton<V>, MotionData<V>), ParseError>)
    ensures |lines| == 0 || !StartsWith(Upper(lines[0]), "HIERARCHY") ==> r == Err(NotBvh)
    ensures |lines| == 1 && StartsWith(Upper(lines[0]), "HIERARCHY") ==> r == Err(OutOfLines)
    ensures |lines| >= 2 && StartsWith(Upper(lines[0]), "HIERARCHY") && !StartsWith(lines[1], "ROOT") ==> r == Err(NoRoot)
    ensures r.Ok? ==> |lines| >= 2 && |Words(lines[1])| >= 2 && |r.value.0.joints| >= 1
    ensures r.Ok? ==> |r.value.1.rows| == RowsLeft(0, r.value.1.frames)
    ensures r.Ok? ==> forall f :: 0 <= f < |r.value.1.rows| ==> |r.value.1.rows[f]| == r.value.0.cursor
  {
    if |lines| == 0 || !StartsWith(Upper(lines[0]), "HIERARCHY") then Err(NotBvh)
    else if |lines| < 2 then Err(OutOfLines)
    else if !StartsWith(lines[1], "ROOT") then Err(NoRoot)
    else if |Words(lines[1])| < 2 then Err(MissingToken(lines[1]))
    else RootAndMotion(lines, Words(lines[1])[1], toInt, toValue, zero)
  }

  /**
   * What follows the ROOT line: the root `name` alone in the arena, its
   * block read from line 2 with the cursor at 0, then the motion section.
   */
  function RootAndMotion<V>(lines: seq<string>, name: string, toInt: string -> Option<int>,
                            toValue: string -> Option<V>, zero: V)
    : (r: Result<(Skeleton<V>, MotionData<V>), ParseError>)
    requires |lines| >= 2
    ensures r.Ok? ==> |r.value.0.joints| >= 1
    ensures r.Ok? ==> |r.value.1.rows| == RowsLeft(0, r.value.1.frames)
    ensures r.Ok? ==> forall f :: 0 <= f < |r.value.1.rows| ==> |r.value.1.rows[f]| == r.value.0.cursor
  {
    var root := Skeleton([JointRec(name, None, [], [zero, zero, zero], [], -1)], map[name := 0], 0);
    match JointBlock(lines, root, 0, 2, toInt, toValue, zero)
    case Err(e) => Err(e)
    case Ok(p) =>
      match MotionSection(lines, p.next, p.skeleton.cursor, toInt, toValue)
      case Err(e) => Err(e)
      case Ok(m) => Ok((p.skeleton, m))
  }

  class Bvh<V> {
    /** The text the object was made from, and its trimmed non-empty lines. */
    const text: string
    const lines: seq<string>
    /** The joint arena; joint 0 is the root once the ROOT line is read. */
    var joints: seq<JointRec<V>>
    var jointsByName: map<string, nat>
    var frames: int
    var frameTime: V
    var motion: seq<seq<V>>
    var totalChannels: int
    /** The running channel cursor shared by all joint blocks. */
    var cursor: int
    /** Counts of the CHANNELS lines read so far, and which line each joint took its channels from. */
    ghost var decls: seq<nat>
    ghost var declOf: seq<int>

    /** The joints, the name index and the cursor, as one value. */
    function Built(): Skeleton<V>
      reads this`joints, this`jointsByName, this`cursor
    {
      Skeleton(joints, jointsByName, cursor)
    }

    /** The invariant the joint-block parser keeps. */
    ghost predicate Valid()
      reads this`joints, this`jointsByName, this`decls, this`declOf, this`cursor
    {
      ArenaOk(joints, jointsByName, decls, declOf) && cursor == Sum(decls)
    }

    /** The state after a successful parse: the motion table has `frames` rows of `totalChannels` values. */
    ghost predicate Parsed()
      reads this
    {
      && Valid()
      && totalChannels == cursor
      && |motion| == RowsLeft(0, frames)
      && (forall f :: 0 <= f < |motion| ==> |motion[f]| == totalChannels)
    }

    /**
     * `_parse`, run on a freshly made object: the first line must start with
     * HIERARCHY (in any case), the second with ROOT and a name; the root's
     * block is parsed with the cursor at 0, then the motion section follows.
     */
    method Parse(toInt: string -> Option<int>, toValue: string -> Option<V>, zero: V) returns (o: Outcome<ParseError>)
      requires joints == [] && jointsByName == map[] && cursor == 0 && decls == [] && declOf == []
      modifies this
      ensures |lines| == 0 || !StartsWith(Upper(lines[0]), "HIERARCHY") ==> o == Fail(NotBvh)
      ensures |lines| == 1 && StartsWith(Upper(lines[0]), "HIERARCHY") ==> o == Fail(OutOfLines)
      ensures |lines| >= 2 && StartsWith(Upper(lines[0]), "HIERARCHY") && !StartsWith(lines[1], "ROOT") ==> o == Fail(NoRoot)
      ensures o.Pass? ==> Parsed()
      ensures o.Pass? ==> |lines| >= 2 && |Words(lines[1])| >= 2 && joints[0].name == Words(lines[1])[1] && joints[0].parent == None
      ensures var spec := ParseLines(lines, toInt, toValue, zero);
              && (o.Pass? <==> spec.Ok?)
              && (o.Fail? ==> o.error == spec.error)
              && (o.Pass? ==> Built() == spec.value.0 && frames == spec.value.1.frames
                              && frameTime == spec.value.1.frameTime && motion == spec.value.1.rows)
    {
      if |lines| == 0 || !StartsWith(Upper(lines[0]), "HIERARCHY") {
        return Fail(NotBvh);
      }
      if |lines| < 2 {
        return Fail(OutOfLines);
      }
      if !StartsWith(lines[1], "ROOT") {
        return Fail(NoRoot);
      }
      var ws := Words(lines[1]);
      if |ws| < 2 {
        return Fail(MissingToken(lines[1]));
      }
      o := ParseRoot(ws[1], toInt, toValue, zero);
    }

    /** The rest of `_parse` once the ROOT line has given the root's `name`. */
    method ParseRoot(name: string, toInt: string -> Option<int>, toValue: string -> Option<V>, zero: V)
      returns (o: Outcome<ParseError>)
      requires joints == [] && jointsByName == map[] && cursor == 0 && decls == [] && declOf == []
      requires |lines| >= 2
      modifies this
      ensures o.Pass? ==> Parsed() && joints[0].name == name && joints[0].parent == None
      ensures var spec := RootAndMotion(lines, name, toInt, toValue, zero);
              && (o.Pass? <==> spec.Ok?)
              && (o.Fail? ==> o.error == spec.error)
              && (o.Pass? ==> Built() == spec.value.0 && frames == spec.value.1.frames
                              && frameTime == spec.value.1.frameTime && motion == spec.value.1.rows)
    {
      var root := JointRec(name, None, [], [zero, zero, zero], [], -1);
      InitialArena(root);
      joints, jointsByName, declOf := [root], map[name := 0], [-1];
      var r := ParseJointBlock(0, 2, toInt, toValue, zero);
      if r.Err? {
        return Fail(r.error);
      }
      o := ReadMotion(r.value, toInt, toValue);
    }

    /** `BVH.__init__` up to the call of `_parse`. `zero` is the 0.0 the Python fields start with. */
    constructor (text: string, zero: V)
      ensures this.text == text && lines == CleanLines(SplitLines(text))
      ensures joints == [] && jointsByName == map[] && cursor == 0 && decls == [] && declOf == []
      ensures frames == 0 && frameTime == zero && motion == [] && totalChannels == 0
    {
      this.text := text;
      lines := CleanLines(SplitLines(text));
      joints, jointsByName, cursor := [], map[], 0;
      decls, declOf := [], [];
      frames, frameTime, motion, totalChannels := 0, zero, [], 0;
    }

    /** An OFFSET line of joint j: `joint.offset = tuple(nums)`. */
    method SetOffset(j: nat, offset: seq<V>)
      requires Valid() && j < |joints|
      modifies this`joints
      ensures Valid()
      ensures joints == old(joints)[j := old(joints[j]).(offset := offset)]
    {
      SetOffsetKeepsArena(joints, jointsByName, decls, declOf, j, offset);
      joints := joints[j := joints[j].(offset := offset)];
    }

    /**
     * A CHANNELS line of joint j: the joint takes the labels and starts at
     * the cursor, and the cursor moves on by the declared count.
     */
    method SetChannels(j: nat, d: ChannelsDecl)
      requires Valid() && j < |joints| && |d.labels| <= d.count
      modifies this`joints, this`cursor, this`decls, this`declOf
      ensures Valid()
      ensures joints == old(joints)[j := old(joints[j]).(channels := d.labels, chanStart := old(cursor))]
      ensures cursor == old(cursor) + d.count
      ensures decls == old(decls) + [d.count]
    {
      SetChannelsKeepsArena(joints, jointsByName, decls, declOf, j, d);
      joints := joints[j := joints[j].(channels := d.labels, chanStart := cursor)];
      declOf := declOf[j := |decls|];
      decls := decls + [d.count];
      cursor := cursor + d.count;
    }

    /** A JOINT line inside joint j's block: a new child joint, appended and indexed by name. */
    method AddJoint(j: nat, name: string, zero: V) returns (c: nat)
      requires Valid() && j < |joints|
      modifies this`joints, this`jointsByName, this`declOf
      ensures Valid()
      ensures c == old(|joints|)
      ensures joints == AddChild(old(joints), j, name, [zero, zero, zero])
      ensures jointsByName == old(jointsByName)[name := c]
    {
      c := |joints|;
      var offset := [zero, zero, zero];
      var joints' := AddChild(joints, j, name, offset);
      AddChildKeepsArena(joints, jointsByName, decls, declOf, j, name, offset);
      joints := joints';
      jointsByName := jointsByName[name := c];
      declOf := declOf + [-1];
    }

    /**
     * `parse_joint_block(joint, idx)` for the joint at arena position `j`:
     * the block must open with "{" at `idx`. On success the result is the
     * index just after the block's closing "}" (or the end of the lines,
     * when they run out inside the block).
     */
    method ParseJointBlock(j: nat, idx: nat, toInt: string -> Option<int>, toValue: string -> Option<V>, zero: V)
      returns (r: Result<nat, ParseError>)
      requires Valid() && j < |joints| && idx <= |lines|
      modifies this`joints, this`jointsByName, this`cursor, this`decls, this`declOf
      ensures Valid()
      ensures Grew(old(joints), joints, j)
      ensures old(decls) <= decls
      ensures Agrees(r, Built(), JointBlock(lines, old(Built()), j, idx, toInt, toValue, zero))
      ensures r.Ok? ==> idx < r.value <= |lines| && (r.value == |lines| || lines[r.value - 1] == "}")
      ensures idx == |lines| ==> r == Err(OutOfLines) && joints == old(joints) && cursor == old(cursor)
      ensures idx < |lines| && lines[idx] != "{" ==>
                r == Err(BlockOpen(joints[j].name, lines[idx])) && joints == old(joints) && cursor == old(cursor)
      decreases |lines| - idx + 1, 3
    {
      if idx >= |lines| {
        return Err(OutOfLines);
      }
      if lines[idx] != "{" {
        return Err(BlockOpen(joints[j].name, lines[idx]));
      }
      r := ParseBlockBody(j, idx + 1, toInt, toValue, zero);
    }

    /**
     * The `while` loop of `parse_joint_block`, from line `start` on: reads
     * the lines of joint j's block until "}" or the end of the lines.
     */
    method ParseBlockBody(j: nat, start: nat, toInt: string -> Option<int>, toValue: string -> Option<V>, zero: V)
      returns (r: Result<nat, ParseError>)
      requires Valid() && j < |joints| && 0 < start <= |lines|
      modifies this`joints, this`jointsByName, this`cursor, this`decls, this`declOf
      ensures Valid()
      ensures Grew(old(joints), joints, j)
      ensures old(decls) <= decls
      ensures Agrees(r, Built(), BlockBody(lines, old(Built()), j, start, toInt, toValue, zero))
      ensures r.Ok? ==> start <= r.value <= |lines| && (r.value == |lines| || lines[r.value - 1] == "}")
      decreases |lines| - start + 1, 2
    {
      GrewRefl(joints, j);
      var i := start;
      while i < |lines|
        invariant start <= i <= |lines|
        invariant Valid() && j < |joints|
        invariant Grew(old(joints), joints, j)
        invariant old(decls) <= decls
        invariant BlockBody(lines, old(Built()), j, start, toInt, toValue, zero)
                  == BlockBody(lines, Built(), j, i, toInt, toValue, zero)
        decreases |lines| - i
      {
        ghost var before := joints;
        var next, closed := ParseBlockLine(j, i, toInt, toValue, zero);
        GrewTrans(old(joints), before, joints, j);
        if next.Err? || closed {
          return next;
        }
        i := next.value;
      }
      return Ok(i);
    }

    /**
     * One pass of that loop, at line `i`: OFFSET sets joint j's offset,
     * CHANNELS gives it the next slots of the cursor, JOINT adds a child and
     * parses the child's block, End Site skips its four lines, "}" closes
     * the block (`closed`), and any other line is skipped. On success the
     * result is the index of the next line to read.
     */
    method ParseBlockLine(j: nat, i: nat, toInt: string -> Option<int>, toValue: string -> Option<V>, zero: V)
      returns (r: Result<nat, ParseError>, closed: bool)
      requires Valid() && j < |joints| && i < |lines|
      modifies this`joints, this`jointsByName, this`cursor, this`decls, this`declOf
      ensures Valid()
      ensures Grew(old(joints), joints, j)
      ensures old(decls) <= decls
      ensures Agrees(r, Built(), BlockLine(lines, old(Built()), j, i, toInt, toValue, zero))
      ensures StartsWith(lines[i], "CHANNELS") && !StartsWith(lines[i], "OFFSET") ==>
                var d := ChannelsLine(Words(lines[i]), toInt);
                && (d.Err? ==> r == Err(d.error))
                && (d.Ok? ==> && r == Ok(i + 1) && cursor == old(cursor) + d.value.count
                              && joints == old(joints)[j := old(joints)[j].(channels := d.value.labels, chanStart := old(cursor))])
      ensures StartsWith(lines[i], "OFFSET") ==>
                var nums := OffsetLine(Words(lines[i]), toValue);
                && (nums.Err? ==> r == Err(nums.error))
                && (nums.Ok? ==> r == Ok(i + 1) && cursor == old(cursor) && joints == old(joints)[j := old(joints)[j].(offset := nums.value)])
      ensures StartsWith(lines[i], "JOINT") && !StartsWith(lines[i], "OFFSET") && !StartsWith(lines[i], "CHANNELS") ==>
                var ws := Words(lines[i]);
                && (|ws| < 2 ==> r == Err(MissingToken(lines[i])))
                && (|ws| >= 2 && r.Ok? ==> && |old(joints)| < |joints| && joints[|old(joints)|].name == ws[1]
                                           && joints[|old(joints)|].parent == Some(j)
                                           && |old(joints)| in joints[j].children)
      ensures r.Ok? ==> i < r.value <= |lines|
      ensures closed <==> r.Ok? && lines[i] == "}"
      ensures closed ==> r.value == i + 1
      ensures StartsWith(lines[i], "End Site") && !StartsWith(lines[i], "OFFSET") && !StartsWith(lines[i], "CHANNELS")
              && !StartsWith(lines[i], "JOINT") ==>
                joints == old(joints) && cursor == old(cursor) && r == EndSite(lines, i)
      ensures !StartsWith(lines[i], "OFFSET") && !StartsWith(lines[i], "CHANNELS") && !StartsWith(lines[i], "JOINT")
              && !StartsWith(lines[i], "End Site") && lines[i] != "}" ==>
                joints == old(joints) && cursor == old(cursor) && r == Ok(i + 1)
      decreases |lines| - i + 1, 1
    {
      GrewRefl(joints, j);
      closed := false;
      var ln := lines[i];
      if StartsWith(ln, "OFFSET") {
        var nums := OffsetLine(Words(ln), toValue);
        if nums.Err? {
          return Err(nums.error), false;
        }
        GrewBySet(joints, joints, j, joints[j].(offset := nums.value));
        SetOffset(j, nums.value);
        r := Ok(i + 1);
      } else if StartsWith(ln, "CHANNELS") {
        var d := ChannelsLine(Words(ln), toInt);
        if d.Err? {
          return Err(d.error), false;
        }
        GrewBySet(joints, joints, j, joints[j].(channels := d.value.labels, chanStart := cursor));
        SetChannels(j, d.value);
        r := Ok(i + 1);
      } else if StartsWith(ln, "JOINT") {
        r := ReadJointLine(j, i, toInt, toValue, zero);
      } else if StartsWith(ln, "End Site") {
        r := EndSite(lines, i);
      } else if ln == "}" {
        r, closed := Ok(i + 1), true;
      } else {
        r := Ok(i + 1);
      }
    }

    /**
     * A JOINT line inside joint j's block: `ln.split()[1]` names a new
     * child, which is appended and indexed, and whose block is read next.
     */
    method ReadJointLine(j: nat, i: nat, toInt: string -> Option<int>, toValue: string -> Option<V>, zero: V)
      returns (r: Result<nat, ParseError>)
      requires Valid() && j < |joints| && i < |lines|
      requires StartsWith(lines[i], "JOINT") && !StartsWith(lines[i], "OFFSET") && !StartsWith(lines[i], "CHANNELS")
      modifies this`joints, this`jointsByName, this`cursor, this`decls, this`declOf
      ensures Valid()
      ensures Grew(old(joints), joints, j)
      ensures old(decls) <= decls
      ensures Agrees(r, Built(), BlockLine(lines, old(Built()), j, i, toInt, toValue, zero))
      ensures var ws := Words(lines[i]);
              && (|ws| < 2 ==> r == Err(MissingToken(lines[i])))
              && (|ws| >= 2 && r.Ok? ==> && |old(joints)| < |joints| && joints[|old(joints)|].name == ws[1]
                                         && joints[|old(joints)|].parent == Some(j)
                                         && |old(joints)| in joints[j].children)
      ensures r.Ok? ==> i < r.value <= |lines|
      decreases |lines| - i + 1, 0
    {
      var ws := Words(lines[i]);
      if |ws| < 2 {
        GrewRefl(joints, j);
        return Err(MissingToken(lines[i]));
      }
      var c := AddJoint(j, ws[1], zero);
      r := ParseJointBlock(c, i + 1, toInt, toValue, zero);
      GrewByChild(old(joints), old(joints), j, ws[1], [zero, zero, zero], joints);
    }

    /**
     * The motion part of `_parse`, from line `i`: reads the frame count and
     * the frame time, fixes `total_channels` at the channel cursor, and fills
     * `motion` frame by frame. It fails exactly where `MotionSection` does,
     * with the same error, and otherwise stores what `MotionSection` reads.
     */
    method ReadMotion(i: nat, toInt: string -> Option<int>, toValue: string -> Option<V>) returns (o: Outcome<ParseError>)
      modifies this`frames, this`frameTime, this`totalChannels, this`motion
      ensures var m := MotionSection(lines, i, cursor, toInt, toValue);
              && (o.Pass? <==> m.Ok?)
              && (o.Fail? ==> o.error == m.error)
              && (m.Ok? ==> frames == m.value.frames && frameTime == m.value.frameTime && motion == m.value.rows)
      ensures totalChannels == cursor || o.Fail?
    {
      if i >= |lines| {
        return Fail(OutOfLines);
      }
      if !StartsWith(lines[i], "MOTION") {
        return Fail(NoMotion);
      }
      if i + 1 >= |lines| {
        return Fail(OutOfLines);
      }
      if !StartsWith(lines[i + 1], "Frames:") {
        return Fail(NoFrames);
      }
      var ws := Words(lines[i + 1]);
      if |ws| < 2 {
        return Fail(MissingToken(lines[i + 1]));
      }
      var n := toInt(ws[1]);
      if n.None? {
        return Fail(BadNumber(ws[1]));
      }
      frames := n.value;
      if i + 2 >= |lines| {
        return Fail(OutOfLines);
      }
      if !StartsWith(lines[i + 2], "Frame Time:") {
        return Fail(NoFrameTime);
      }
      ws := Words(lines[i + 2]);
      if |ws| < 3 {
        return Fail(MissingToken(lines[i + 2]));
      }
      var t := toValue(ws[2]);
      if t.None? {
        return Fail(BadNumber(ws[2]));
      }
      frameTime := t.value;
      totalChannels := cursor;
      o := ReadFrames(i + 3, toValue);
    }

    /**
     * The loop `for f in range(self.frames)` of `_parse`: frame f is line
     * `start + f`, and must hold `total_channels` numbers.
     */
    method ReadFrames(start: nat, toValue: string -> Option<V>) returns (o: Outcome<ParseError>)
      modifies this`motion
      ensures var rows := FrameRows(lines, start, 0, frames, totalChannels, toValue);
              && (o.Pass? <==> rows.Ok?)
              && (o.Fail? ==> o.error == rows.error)
              && (rows.Ok? ==> motion == rows.value)
    {
      var r := ReadRows(lines, start, frames, totalChannels, toValue);
      if r.Err? {
        return Fail(r.error);
      }
      motion := r.value;
      o := Pass;
    }
  }

  /**
   * The loop body of `for f in range(frames)`: frame f is read from line
   * `start + f` and appended, or its error ends the loop.
   */
  method ReadRows<V>(lines: seq<string>, start: nat, n: int, width: int, toValue: string -> Option<V>)
    returns (r: Result<seq<seq<V>>, ParseError>)
    ensures r == FrameRows(lines, start, 0, n, width, toValue)
  {
    ghost var spec := FrameRows(lines, start, 0, n, width, toValue);
    var rows: seq<seq<V>> := [];
    PrependNothing(spec);
    var f: nat := 0;
    while f < n
      invariant f <= n || f == 0
      invariant |rows| == f
      invariant spec == Prepend(rows, FrameRows(lines, start, f, n, width, toValue))
      decreases n - f
    {
      var row := FrameRow(lines, start, f, width, toValue);
      ReadOneFrame(lines, start, f, n, width, toValue, rows, spec);
      if row.Err? {
        return Err(row.error);
      }
      rows := rows + [row.value];
      f := f + 1;
    }
    assert FrameRows(lines, start, f, n, width, toValue) == Ok([]);
    assert rows + [] == rows;
    r := Ok(rows);
  }

  /** `BVH(text)`: a new object, parsed; a parse error is returned instead of raised. */
  method Load<V>(text: string, toInt: string -> Option<int>, toValue: string -> Option<V>, zero: V)
    returns (r: Result<Bvh<V>, ParseError>)
    ensures r.Ok? ==> fresh(r.value) && r.value.text == text && r.value.Parsed()
    ensures r.Ok? ==> r.value.lines == CleanLines(SplitLines(text))
    ensures var spec := ParseLines(CleanLines(SplitLines(text)), toInt, toValue, zero);
            && (r.Ok? <==> spec.Ok?)
            && (r.Err? ==> r.error == spec.error)
            && (r.Ok? ==> && r.value.Built() == spec.value.0 && r.value.frames == spec.value.1.frames
                          && r.value.frameTime == spec.value.1.frameTime && r.value.motion == spec.value.1.rows)
  {
    var b := new Bvh(text, zero);
    var o := b.Parse(toInt, toValue, zero);
    if o.Fail? {
      return Err(o.error);
    }
    return Ok(b);
  }
}
