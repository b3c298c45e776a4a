/**
 * `apply_angle_patch`: in the last frame, every rotation channel of every
 * named joint takes the value it has in the second frame (index 1).
 * The slots it copies are described by the set `Targets`; the patched
 * motion table by `PatchMotion`.
 */
module Patch {
  import opened Basics
  import opened Text
  import opened Hierarchy
  import opened Parser

  datatype PatchError = TooFewFrames(frames: int)

  /** A rotation channel is one whose label contains "rotation" (Xrotation, Yrotation, Zrotation). */
  predicate IsRotation(ch: string) {
    Contains(ch, "rotation")
  }

  /** The motion slots of the rotation channels among the first `k` channels of `jr`. */
  function RotationSlots<V>(jr: JointRec<V>, k: nat): set<int>
    requires k <= |jr.channels|
  {
    if k == 0 then {}
    else RotationSlots(jr, k - 1) + (if IsRotation(jr.channels[k - 1]) then {jr.chanStart + k - 1} else {})
  }

  /** Slot s belongs to the rotation channels before `k` exactly when it is `chanStart + k'` of a rotation channel k' < k. */
  lemma {:induction false} RotationSlotsExactly<V>(jr: JointRec<V>, k: nat, s: int)
    requires k <= |jr.channels|
    ensures s in RotationSlots(jr, k) <==> 0 <= s - jr.chanStart < k && IsRotation(jr.channels[s - jr.chanStart])
  {
    if k > 0 {
      RotationSlotsExactly(jr, k - 1, s);
    }
  }

  /**
   * The joint `name` selects: it must be in the name index and have
   * channels (a CHANNELS line with a start of 0 or more and a non-empty
   * label list); otherwise the name is skipped.
   */
  predicate Selects<V>(joints: seq<JointRec<V>>, index: map<string, nat>, name: string)
  {
    && name in index && index[name] < |joints|
    && joints[index[name]].chanStart >= 0 && joints[index[name]].channels != []
  }

  /** The slots the patch copies on behalf of one name. */
  function NameSlots<V>(joints: seq<JointRec<V>>, index: map<string, nat>, name: string): set<int>
  {
    if Selects(joints, index, name) then
      var jr := joints[index[name]];
      RotationSlots(jr, |jr.channels|)
    else {}
  }

  /** The slots the patch copies for all the names. */
  function Targets<V>(joints: seq<JointRec<V>>, index: map<string, nat>, names: seq<string>): set<int>
  {
    if names == [] then {}
    else Targets(joints, index, names[..|names| - 1]) + NameSlots(joints, index, names[|names| - 1])
  }

  /** The rotation channel k of the joint that `names[i]` selects sits at slot s. */
  predicate Copies<V>(joints: seq<JointRec<V>>, index: map<string, nat>, names: seq<string>, i: int, k: int, s: int)
  {
    && 0 <= i < |names| && Selects(joints, index, names[i])
    && var jr := joints[index[names[i]]];
       0 <= k < |jr.channels| && IsRotation(jr.channels[k]) && s == jr.chanStart + k
  }

  /** A slot is a target exactly when some name selects a joint one of whose rotation channels sits there. */
  lemma {:induction false} TargetsExactly<V>(joints: seq<JointRec<V>>, index: map<string, nat>, names: seq<string>, s: int)
    ensures s in Targets(joints, index, names) <==> exists i, k :: Copies(joints, index, names, i, k, s)
  {
    if names != [] {
      var init := names[..|names| - 1];
      var last := |names| - 1;
      TargetsExactly(joints, index, init, s);
      if s in Targets(joints, index, names) {
        if s in Targets(joints, index, init) {
          var i, k :| Copies(joints, index, init, i, k, s);
          assert Copies(joints, index, names, i, k, s);
        } else {
          var jr := joints[index[names[last]]];
          RotationSlotsExactly(jr, |jr.channels|, s);
          assert Copies(joints, index, names, last, s - jr.chanStart, s);
        }
      }
      if exists i, k :: Copies(joints, index, names, i, k, s) {
        var i, k :| Copies(joints, index, names, i, k, s);
        if i < last {
          assert Copies(joints, index, init, i, k, s);
        } else {
          var jr := joints[index[names[last]]];
          RotationSlotsExactly(jr, |jr.channels|, s);
        }
      }
    }
  }

  /** Row `end` with every target slot taken from row `start`. */
  function PatchRow<V>(start: seq<V>, end: seq<V>, targets: set<int>): (r: seq<V>)
    ensures |r| == |end|
  {
    seq(|end|, s requires 0 <= s < |end| => if s in targets && s < |start| then start[s] else end[s])
  }

  /** The motion table after the patch: only the last frame changes, and it keeps its width. */
  function PatchMotion<V>(motion: seq<seq<V>>, targets: set<int>): (m: seq<seq<V>>)
    requires |motion| >= 2
    ensures |m| == |motion|
    ensures forall f :: 0 <= f < |motion| - 1 ==> m[f] == motion[f]
    ensures |m[|m| - 1]| == |motion[|motion| - 1]|
  {
    var last := |motion| - 1;
    motion[last := PatchRow(motion[1], motion[last], targets)]
  }

  /** Copying one more slot. */
  lemma PatchRowAdd<V>(start: seq<V>, end: seq<V>, targets: set<int>, s: int)
    requires 0 <= s < |start| && s < |end|
    ensures PatchRow(start, end, targets)[s := start[s]] == PatchRow(start, end, targets + {s})
  {
  }

  /**
   * `apply_angle_patch(bvh, joint_names)`. With fewer than two frames it
   * fails and changes nothing; otherwise the last frame is patched as
   * `PatchMotion` says. With exactly two frames the second and the last
   * frame are one row, and every copy writes a slot onto itself.
   */
  method ApplyAnglePatch<V>(bvh: Bvh<V>, names: seq<string>) returns (o: Outcome<PatchError>)
    requires bvh.Parsed()
    modifies bvh`motion
    ensures bvh.Parsed()
    ensures o.Fail? <==> bvh.frames < 2
    ensures o.Fail? ==> o == Fail(TooFewFrames(bvh.frames)) && bvh.motion == old(bvh.motion)
    ensures o.Pass? ==> bvh.motion == PatchMotion(old(bvh.motion), Targets(bvh.joints, bvh.jointsByName, names))
  {
    if bvh.frames < 2 {
      return Fail(TooFewFrames(bvh.frames));
    }
    var startIdx := 1;
    var endIdx := bvh.frames - 1;
    var startFrame := bvh.motion[startIdx];
    var endFrame := bvh.motion[endIdx];
    ghost var end0 := endFrame;
    ghost var joints, index := bvh.joints, bvh.jointsByName;
    assert names[..0] == [];
    for n := 0 to |names|
      invariant bvh.motion == old(bvh.motion)
      invariant endFrame == PatchRow(startFrame, end0, Targets(joints, index, names[..n]))
    {
      assert names[..n + 1][..n] == names[..n];
      var name := names[n];
      if name !in bvh.jointsByName {
        continue;
      }
      assert NameIndexed(joints, index, name);
      var jr := bvh.joints[bvh.jointsByName[name]];
      if jr.chanStart < 0 || jr.channels == [] {
        continue;
      }
      ChannelSlotBound(bvh.joints, bvh.decls, bvh.declOf, bvh.jointsByName[name]);
      var base := jr.chanStart;
      ghost var before := Targets(joints, index, names[..n]);
      assert before + RotationSlots(jr, 0) == before;
      for k := 0 to |jr.channels|
        invariant bvh.motion == old(bvh.motion)
        invariant endFrame == PatchRow(startFrame, end0, before + RotationSlots(jr, k))
      {
        if Contains(jr.channels[k], "rotation") {
          PatchRowAdd(startFrame, end0, before + RotationSlots(jr, k), base + k);
          endFrame := endFrame[base + k := startFrame[base + k]];
        }
        assert before + RotationSlots(jr, k + 1)
            == before + RotationSlots(jr, k) + (if IsRotation(jr.channels[k]) then {base + k} else {});
      }
    }
    assert names[..|names|] == names;
    bvh.motion := bvh.motion[endIdx := endFrame];
    o := Pass;
  }

  /** Every copied slot lies inside a frame: below the total channel count. */
  lemma TargetsInRange<V>(joints: seq<JointRec<V>>, index: map<string, nat>, decls: seq<nat>, declOf: seq<int>,
                          names: seq<string>, s: int)
    requires ArenaOk(joints, index, decls, declOf)
    requires s in Targets(joints, index, names)
    ensures 0 <= s < Sum(decls)
  {
    TargetsExactly(joints, index, names, s);
    var p, k :| Copies(joints, index, names, p, k, s);
    assert NameIndexed(joints, index, names[p]);
    ChannelSlotBound(joints, decls, declOf, index[names[p]]);
  }

  /**
   * A copied slot that sits in channel k of joint i belongs to a rotation
   * channel of a joint some name selects: joint i itself, as no two joints
   * share a slot.
   */
  lemma TargetSlotOwner<V>(joints: seq<JointRec<V>>, index: map<string, nat>, decls: seq<nat>, declOf: seq<int>,
                           names: seq<string>, i: nat, k: nat)
    requires Layout(joints, decls, declOf) && i < |joints| && k < |joints[i].channels|
    requires joints[i].chanStart + k in Targets(joints, index, names)
    ensures IsRotation(joints[i].channels[k])
    ensures exists p :: 0 <= p < |names| && Selects(joints, index, names[p]) && index[names[p]] == i
  {
    var s := joints[i].chanStart + k;
    TargetsExactly(joints, index, names, s);
    var p, k' :| Copies(joints, index, names, p, k', s);
    var i' := index[names[p]];
    if i' != i {
      SlotsDisjoint(joints, decls, declOf, i, i');
      assert false;
    }
  }

  /**
   * The effect of the patch on one channel slot of the last frame: channel
   * k of joint i takes the second frame's value when it is a rotation
   * channel of a joint some name selects, and keeps its value otherwise.
   */
  lemma PatchSlot<V>(motion: seq<seq<V>>, joints: seq<JointRec<V>>, index: map<string, nat>, decls: seq<nat>,
                     declOf: seq<int>, names: seq<string>, i: nat, k: nat)
    requires Layout(joints, decls, declOf) && i < |joints| && k < |joints[i].channels|
    requires |motion| >= 2 && |motion[1]| == Sum(decls) && |motion[|motion| - 1]| == Sum(decls)
    ensures var s := joints[i].chanStart + k;
            var last := |motion| - 1;
            && 0 <= s < Sum(decls)
            && PatchMotion(motion, Targets(joints, index, names))[last][s]
               == if IsRotation(joints[i].channels[k]) && exists p :: 0 <= p < |names| && Selects(joints, index, names[p]) && index[names[p]] == i
                  then motion[1][s] else motion[last][s]
  {
    var s := joints[i].chanStart + k;
    ChannelSlotBound(joints, decls, declOf, i);
    var targets := Targets(joints, index, names);
    if s in targets {
      TargetSlotOwner(joints, index, decls, declOf, names, i, k);
    } else if IsRotation(joints[i].channels[k]) && exists p :: 0 <= p < |names| && Selects(joints, index, names[p]) && index[names[p]] == i {
      var p :| 0 <= p < |names| && Selects(joints, index, names[p]) && index[names[p]] == i;
      assert Copies(joints, index, names, p, k, s);
      TargetsExactly(joints, index, names, s);
      assert false;
    }
  }

  /** A row patched from itself is unchanged: with two frames the patch changes nothing. */
  lemma PatchRowSelf<V>(row: seq<V>, targets: set<int>)
    ensures PatchRow(row, row, targets) == row
  {
  }

  lemma TwoFramesUnchanged<V>(motion: seq<seq<V>>, targets: set<int>)
    requires |motion| == 2
    ensures PatchMotion(motion, targets) == motion
  {
    PatchRowSelf(motion[1], targets);
  }

  /** Patching a second time changes nothing more. */
  lemma PatchIdempotent<V>(motion: seq<seq<V>>, targets: set<int>)
    requires |motion| >= 2
    ensures PatchMotion(PatchMotion(motion, targets), targets) == PatchMotion(motion, targets)
  {
    var last := |motion| - 1;
    if last == 1 {
      TwoFramesUnchanged(motion, targets);
    } else {
      var m := PatchMotion(motion, targets);
      assert m[1] == motion[1];
      assert PatchRow(m[1], m[last], targets) == m[last];
    }
  }
}
