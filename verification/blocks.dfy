/**
 * What `parse_joint_block` builds, as pure functions: the joints read so
 * far, the name index and the channel cursor (`Skeleton`) go in, and the
 * skeleton after the block and the index of the next line come out. The
 * methods of `Parser.Bvh` are proved to build exactly this.
 */
module Blocks {
  import opened Basics
  import opened Text
  import opened Hierarchy

  /** The joint arena, `joints_by_name` and `channel_cursor`. */
  datatype Skeleton<V> = Skeleton(joints: seq<JointRec<V>>, byName: map<string, nat>, cursor: int)

  /** A skeleton and the index of the line to read next. */
  datatype Progress<V> = Progress(skeleton: Skeleton<V>, next: nat)

  /** A method's result `r` and final skeleton `sk` are those `spec` describes. */
  ghost predicate Agrees<V>(r: Result<nat, ParseError>, sk: Skeleton<V>, spec: Result<Progress<V>, ParseError>) {
    match spec
    case Err(e) => r == Err(e)
    case Ok(p) => r == Ok(p.next) && sk == p.skeleton
  }

  /**
   * `parse_joint_block(joint, idx)` for the joint at position `j`: the
   * block must open with "{" at `idx`; its lines are read up to the
   * closing "}" or the end of the lines.
   */
  function JointBlock<V>(lines: seq<string>, sk: Skeleton<V>, j: nat, idx: nat,
                         toInt: string -> Option<int>, toValue: string -> Option<V>, zero: V)
    : (r: Result<Progress<V>, ParseError>)
    requires j < |sk.joints| && idx <= |lines|
    ensures r.Ok? ==> idx < r.value.next <= |lines| && |sk.joints| <= |r.value.skeleton.joints|
    ensures r.Ok? ==> lines[idx] == "{" && (r.value.next == |lines| || lines[r.value.next - 1] == "}")
    decreases |lines| - idx + 1, 2
  {
    if idx == |lines| then Err(OutOfLines)
    else if lines[idx] != "{" then Err(BlockOpen(sk.joints[j].name, lines[idx]))
    else BlockBody(lines, sk, j, idx + 1, toInt, toValue, zero)
  }

  /** The `while` loop of `parse_joint_block`, from line `i` on. */
  function BlockBody<V>(lines: seq<string>, sk: Skeleton<V>, j: nat, i: nat,
                        toInt: string -> Option<int>, toValue: string -> Option<V>, zero: V)
    : (r: Result<Progress<V>, ParseError>)
    requires j < |sk.joints| && i <= |lines|
    ensures r.Ok? ==> i <= r.value.next <= |lines| && |sk.joints| <= |r.value.skeleton.joints|
    ensures r.Ok? ==> r.value.next == |lines| || (0 < r.value.next && lines[r.value.next - 1] == "}")
    decreases |lines| - i + 1, 1
  {
    if i == |lines| then Ok(Progress(sk, i))
    else
      match BlockLine(lines, sk, j, i, toInt, toValue, zero)
      case Err(e) => Err(e)
      case Ok(p) =>
        if lines[i] == "}" then Ok(p)
        else BlockBody(lines, p.skeleton, j, p.next, toInt, toValue, zero)
  }

  /**
   * One pass of that loop at line `i`: OFFSET sets the joint's offset,
   * CHANNELS gives it its labels and the next slots of the cursor, JOINT
   * appends a child and reads the child's block, End Site skips its lines,
   * and "}" or any other line moves on by one.
   */
  function BlockLine<V>(lines: seq<string>, sk: Skeleton<V>, j: nat, i: nat,
                        toInt: string -> Option<int>, toValue: string -> Option<V>, zero: V)
    : (r: Result<Progress<V>, ParseError>)
    requires j < |sk.joints| && i < |lines|
    ensures r.Ok? ==> i < r.value.next <= |lines| && |sk.joints| <= |r.value.skeleton.joints|
    ensures lines[i] == "}" ==> r == Ok(Progress(sk, i + 1))
    decreases |lines| - i + 1, 0
  {
    var ln := lines[i];
    if StartsWith(ln, "OFFSET") then
      match OffsetLine(Words(ln), toValue)
      case Err(e) => Err(e)
      case Ok(nums) => Ok(Progress(sk.(joints := sk.joints[j := sk.joints[j].(offset := nums)]), i + 1))
    else if StartsWith(ln, "CHANNELS") then
      match ChannelsLine(Words(ln), toInt)
      case Err(e) => Err(e)
      case Ok(d) =>
        var jr := sk.joints[j].(channels := d.labels, chanStart := sk.cursor);
        Ok(Progress(Skeleton(sk.joints[j := jr], sk.byName, sk.cursor + d.count), i + 1))
    else if StartsWith(ln, "JOINT") then
      var ws := Words(ln);
      if |ws| < 2 then Err(MissingToken(ln))
      else
        var c := |sk.joints|;
        var child := Skeleton(AddChild(sk.joints, j, ws[1], [zero, zero, zero]), sk.byName[ws[1] := c], sk.cursor);
        JointBlock(lines, child, c, i + 1, toInt, toValue, zero)
    else if StartsWith(ln, "End Site") then
      match EndSite(lines, i)
      case Err(e) => Err(e)
      case Ok(n) => Ok(Progress(sk, n))
    else Ok(Progress(sk, i + 1))
  }
}
