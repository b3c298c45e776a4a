/**
 * The values the hierarchy parser works with: joints, parse errors, the
 * per-line steps of the joint-block grammar, and the two invariants the
 * parser keeps over its joint arena (the tree shape and the channel layout).
 *
 * Joints live in an arena, a sequence in declaration order; a joint's
 * position in it stands for the Python object, so `parent`, `children`
 * and the name index hold arena positions.
 */
module Hierarchy {
  import opened Basics
  import opened Text

  /** One joint: `Joint` in patch_bvh_angles.py. `chanStart == -1` means no CHANNELS line was seen. */
  datatype JointRec<V> = JointRec(
    name: string,
    parent: Option<nat>,
    children: seq<nat>,
    offset: seq<V>,
    channels: seq<string>,
    chanStart: int)

  /** Every way the parse can fail: the explicit `raise`s, plus Python's implicit IndexError and ValueError. */
  datatype ParseError =
    | NotBvh                                        // no lines, or the first is not HIERARCHY
    | NoRoot                                        // the second line is not ROOT
    | BlockOpen(joint: string, found: string)       // a joint block does not open with "{"
    | EndSiteOpen                                   // "End Site" not followed by "{"
    | EndSiteOffset                                 // ... then not by an OFFSET line
    | EndSiteClose                                  // ... then not by "}"
    | NoMotion
    | NoFrames
    | NoFrameTime
    | FrameTruncated(frame: nat)                     // the lines end before frame `frame`
    | FrameWidth(frame: nat, width: nat, expected: int)
    | OutOfLines                                    // IndexError: a line was read past the end
    | MissingToken(line: string)                    // IndexError: `split()[k]` on a short line
    | BadNumber(token: string)                      // ValueError from int() or float()
    | NegativeChannelCount(line: string)            // see the finding on CHANNELS counts

  /** A non-empty line with no white space at either end. */
  predicate Stripped(s: string) {
    s != [] && !IsSpace(s[0]) && !IsSpace(s[|s| - 1])
  }

  /** The trimmed, non-empty lines the parser reads (`_parse`, first statement). */
  function CleanLines(raw: seq<string>): (ls: seq<string>)
    ensures |ls| <= |raw|
    ensures forall i :: 0 <= i < |ls| ==> Stripped(ls[i])
  {
    if raw == [] then []
    else
      var t := Strip(raw[0]);
      var rest := CleanLines(raw[1..]);
      if t == [] then rest
      else
        var ls := [t] + rest;
        assert Stripped(ls[0]);
        assert forall i :: 1 <= i < |ls| ==> ls[i] == rest[i - 1];
        ls
  }

  /** Cleaning works line by line, in order: a blank line is dropped, any other is kept stripped. */
  lemma {:induction false} CleanLinesSnoc(raw: seq<string>, l: string)
    ensures CleanLines(raw + [l]) == CleanLines(raw) + (if Strip(l) == [] then [] else [Strip(l)])
  {
    if raw == [] {
      assert [] + [l] == [l] && [l][1..] == [];
    } else {
      assert (raw + [l])[1..] == raw[1..] + [l];
      CleanLinesSnoc(raw[1..], l);
    }
  }

  /** When no line is blank, cleaning only strips each line. */
  lemma {:induction false} CleanLinesNoBlank(raw: seq<string>)
    requires forall i :: 0 <= i < |raw| ==> Strip(raw[i]) != []
    ensures |CleanLines(raw)| == |raw|
    ensures forall i :: 0 <= i < |raw| ==> CleanLines(raw)[i] == Strip(raw[i])
  {
    if raw != [] {
      CleanLinesNoBlank(raw[1..]);
      assert forall i :: 1 <= i < |raw| ==> raw[i] == raw[1..][i - 1];
    }
  }

  /** `list(map(conv, ws))`: all tokens converted, or the first one that does not convert. */
  function ToValues<V>(ws: seq<string>, conv: string -> Option<V>): (r: Result<seq<V>, ParseError>)
    ensures r.Ok? <==> forall i :: 0 <= i < |ws| ==> conv(ws[i]).Some?
    ensures r.Ok? ==> |r.value| == |ws| && forall i :: 0 <= i < |ws| ==> r.value[i] == conv(ws[i]).value
    ensures r.Err? ==> r.error.BadNumber? && r.error.token in ws && conv(r.error.token).None?
  {
    if ws == [] then Ok([])
    else match conv(ws[0])
      case None => Err(BadNumber(ws[0]))
      case Some(v) =>
        match ToValues(ws[1..], conv)
        case Err(e) => Err(e)
        case Ok(rest) =>
          assert forall i :: 1 <= i < |ws| ==> ws[i] == ws[1..][i - 1];
          Ok([v] + rest)
  }

  /** The OFFSET line: `parts[1:4]` converted to numbers. */
  function OffsetLine<V>(ws: seq<string>, toValue: string -> Option<V>): (r: Result<seq<V>, ParseError>)
    ensures r.Ok? ==> |r.value| <= 3 && |r.value| == |Slice(ws, 1, 4)|
    ensures r.Ok? ==> forall i :: 0 <= i < |r.value| ==> 1 + i < |ws| && toValue(ws[1 + i]) == Some(r.value[i])
  {
    ToValues(Slice(ws, 1, 4), toValue)
  }

  /** What a CHANNELS line declares: the count `n` and the labels `parts[2:2+n]`. */
  datatype ChannelsDecl = ChannelsDecl(count: nat, labels: seq<string>)

  /**
   * The CHANNELS line as the parser uses it: `n = int(parts[1])`, labels
   * `parts[2:2+n]`; a negative `n` is rejected (see the finding).
   */
  function ChannelsLine(ws: seq<string>, toInt: string -> Option<int>): (r: Result<ChannelsDecl, ParseError>)
    ensures |ws| < 2 ==> r.Err? && r.error.MissingToken?
    ensures r.Ok? <==> |ws| >= 2 && toInt(ws[1]).Some? && toInt(ws[1]).value >= 0
    ensures r.Ok? ==> toInt(ws[1]) == Some(r.value.count as int)
    ensures r.Ok? ==> |r.value.labels| <= r.value.count
    ensures r.Ok? ==> forall k :: 0 <= k < |r.value.labels| ==> 2 + k < |ws| && r.value.labels[k] == ws[2 + k]
    ensures r.Ok? ==> r.value.labels == Slice(ws, 2, 2 + r.value.count)
  {
    if |ws| < 2 then Err(MissingToken(Join(ws, " ")))
    else match toInt(ws[1])
      case None => Err(BadNumber(ws[1]))
      case Some(n) =>
        if n < 0 then Err(NegativeChannelCount(ws[1]))
        else Ok(ChannelsDecl(n, Slice(ws, 2, 2 + n)))
  }

  /**
   * The "End Site" member, entered with `idx` at its first line: the next
   * three lines must be exactly "{", an OFFSET line and "}". The result is
   * the index after them; nothing else is produced.
   */
  function EndSite(lines: seq<string>, idx: nat): (r: Result<nat, ParseError>)
    requires idx < |lines|
    ensures r.Ok? <==> idx + 3 < |lines| && lines[idx + 1] == "{" && StartsWith(lines[idx + 2], "OFFSET") && lines[idx + 3] == "}"
    ensures r.Ok? ==> r.value == idx + 4
    ensures idx + 1 < |lines| && lines[idx + 1] != "{" ==> r == Err(EndSiteOpen)
    ensures idx + 2 < |lines| && lines[idx + 1] == "{" && !StartsWith(lines[idx + 2], "OFFSET") ==> r == Err(EndSiteOffset)
    ensures idx + 3 < |lines| && lines[idx + 1] == "{" && StartsWith(lines[idx + 2], "OFFSET") && lines[idx + 3] != "}" ==> r == Err(EndSiteClose)
    ensures r.Err? ==> r.error in {OutOfLines, EndSiteOpen, EndSiteOffset, EndSiteClose}
  {
    if idx + 1 >= |lines| then Err(OutOfLines)
    else if lines[idx + 1] != "{" then Err(EndSiteOpen)
    else if idx + 2 >= |lines| then Err(OutOfLines)
    else if !StartsWith(lines[idx + 2], "OFFSET") then Err(EndSiteOffset)
    else if idx + 3 >= |lines| then Err(OutOfLines)
    else if lines[idx + 3] != "}" then Err(EndSiteClose)
    else Ok(idx + 4)
  }

  /** Sum of the CHANNELS counts read so far. */
  function Sum(s: seq<nat>): nat
  {
    if s == [] then 0 else Sum(s[..|s| - 1]) + s[|s| - 1]
  }

  /** Prefix sums grow with the prefix: a declaration ends no later than any later one starts. */
  lemma {:induction false} SumPrefixMonotone(s: seq<nat>, p: nat, q: nat)
    requires p < q <= |s|
    ensures Sum(s[..p]) + s[p] <= Sum(s[..q])
    decreases q - p
  {
    var t := s[..p + 1];
    assert t[..|t| - 1] == s[..p];
    if p + 1 < q {
      SumPrefixMonotone(s, p + 1, q);
    }
  }

  // Each invariant below quantifies over a named predicate, so that its
  // instances are only produced where a proof names them.

  /** Name `n`, if indexed, leads to a joint called `n`. */
  ghost predicate NameIndexed<V>(joints: seq<JointRec<V>>, index: map<string, nat>, n: string)
  {
    n in index ==> index[n] < |joints| && joints[index[n]].name == n
  }

  /** Joint i's name is indexed. */
  ghost predicate NameCovered<V>(joints: seq<JointRec<V>>, index: map<string, nat>, i: nat)
  {
    i < |joints| && joints[i].name in index
  }

  /** The name index hits a joint of that name and covers every joint's name. */
  ghost predicate IndexOk<V>(joints: seq<JointRec<V>>, index: map<string, nat>)
  {
    && (forall n :: NameIndexed(joints, index, n))
    && (forall i :: 0 <= i < |joints| ==> NameCovered(joints, index, i))
  }

  /** Joint i's parent comes before it and lists it as a child. */
  ghost predicate ParentOf<V>(joints: seq<JointRec<V>>, i: nat)
  {
    && i < |joints|
    && joints[i].parent.Some? && joints[i].parent.value < i
    && i in joints[joints[i].parent.value].children
  }

  /** Joint 0 is the only root; every other joint has a parent. */
  ghost predicate ParentsOk<V>(joints: seq<JointRec<V>>)
  {
    && |joints| > 0
    && joints[0].parent == None
    && (forall i :: 0 < i < |joints| ==> ParentOf(joints, i))
  }

  /** The k-th child of joint i comes after it and points back to it. */
  ghost predicate ChildAt<V>(joints: seq<JointRec<V>>, i: nat, k: nat)
  {
    && i < |joints| && k < |joints[i].children|
    && var c := joints[i].children[k];
       i < c < |joints| && joints[c].parent == Some(i)
  }

  ghost predicate ChildrenOk<V>(joints: seq<JointRec<V>>)
  {
    forall i, k :: 0 <= i < |joints| && 0 <= k < |joints[i].children| ==> ChildAt(joints, i, k)
  }

  /** The tree shape of the arena, with its name index. */
  ghost predicate Tree<V>(joints: seq<JointRec<V>>, index: map<string, nat>)
  {
    IndexOk(joints, index) && ParentsOk(joints) && ChildrenOk(joints)
  }

  /** Joint `jr` got its channels from CHANNELS line `p` (or from none, when `p == -1`). */
  ghost predicate SlotsOf<V>(jr: JointRec<V>, decls: seq<nat>, p: int)
  {
    && -1 <= p < |decls|
    && (p == -1 ==> jr.chanStart == -1 && jr.channels == [])
    && (p >= 0 ==> jr.chanStart == Sum(decls[..p]) && |jr.channels| <= decls[p])
  }

  ghost predicate SlotsAt<V>(joints: seq<JointRec<V>>, decls: seq<nat>, declOf: seq<int>, i: nat)
  {
    i < |joints| && i < |declOf| && SlotsOf(joints[i], decls, declOf[i])
  }

  /** Joints i and i' did not take their channels from the same CHANNELS line. */
  ghost predicate DistinctDecls(declOf: seq<int>, i: nat, i': nat)
  {
    i < |declOf| && i' < |declOf| && (declOf[i] >= 0 ==> declOf[i] != declOf[i'])
  }

  /**
   * The channel layout. `decls` holds the counts of the CHANNELS lines in
   * file order; `declOf[i]` is the position in it of joint i's CHANNELS line
   * (-1: none). A joint's `chanStart` is the sum of all counts before its
   * line, its labels are at most its count, and no two joints share a line.
   */
  ghost predicate Layout<V>(joints: seq<JointRec<V>>, decls: seq<nat>, declOf: seq<int>)
  {
    && |declOf| == |joints|
    && (forall i :: 0 <= i < |joints| ==> SlotsAt(joints, decls, declOf, i))
    && (forall i, i' :: 0 <= i < |joints| && 0 <= i' < |joints| && i != i' ==> DistinctDecls(declOf, i, i'))
  }

  /** Both arena invariants together. */
  ghost predicate ArenaOk<V>(joints: seq<JointRec<V>>, index: map<string, nat>, decls: seq<nat>, declOf: seq<int>)
  {
    Tree(joints, index) && Layout(joints, decls, declOf)
  }

  /** Every channel slot of every joint lies below the total channel count (the final cursor). */
  lemma ChannelSlotBound<V>(joints: seq<JointRec<V>>, decls: seq<nat>, declOf: seq<int>, i: nat)
    requires Layout(joints, decls, declOf) && i < |joints|
    ensures joints[i].chanStart >= -1
    ensures joints[i].chanStart >= 0 || joints[i].channels == []
    ensures joints[i].chanStart + |joints[i].channels| <= Sum(decls)
  {
    assert SlotsAt(joints, decls, declOf, i);
    if declOf[i] >= 0 {
      assert decls[..|decls|] == decls;
      SumPrefixMonotone(decls, declOf[i], |decls|);
    }
  }

  /** Distinct joints own disjoint slot ranges. */
  lemma SlotsDisjoint<V>(joints: seq<JointRec<V>>, decls: seq<nat>, declOf: seq<int>, i: nat, i': nat)
    requires Layout(joints, decls, declOf) && i < |joints| && i' < |joints| && i != i'
    requires joints[i].channels != [] && joints[i'].channels != []
    ensures joints[i].chanStart + |joints[i].channels| <= joints[i'].chanStart
         || joints[i'].chanStart + |joints[i'].channels| <= joints[i].chanStart
  {
    assert SlotsAt(joints, decls, declOf, i) && SlotsAt(joints, decls, declOf, i');
    assert DistinctDecls(declOf, i, i');
    var p, p' := declOf[i], declOf[i'];
    if p < p' {
      SumPrefixMonotone(decls, p, p');
    } else {
      SumPrefixMonotone(decls, p', p);
    }
  }

  /** The arena right after the ROOT line: one joint, no channels. */
  lemma InitialArena<V>(root: JointRec<V>)
    requires root.parent == None && root.children == [] && root.channels == [] && root.chanStart == -1
    ensures ArenaOk([root], map[root.name := 0], [], [-1])
  {
    var joints := [root];
    var index := map[root.name := 0];
    assert SlotsAt(joints, [], [-1], 0);
    assert NameCovered(joints, index, 0);
    forall n ensures NameIndexed(joints, index, n) {
    }
  }

  /** Appending the child `c == |joints|` to joint j. */
  function AddChild<V>(joints: seq<JointRec<V>>, j: nat, name: string, offset: seq<V>): (r: seq<JointRec<V>>)
    requires j < |joints|
    ensures |r| == |joints| + 1
    ensures forall i :: 0 <= i < |joints| && i != j ==> r[i] == joints[i]
    ensures r[j] == joints[j].(children := joints[j].children + [|joints|])
    ensures r[|joints|] == JointRec(name, Some(j), [], offset, [], -1)
  {
    joints[j := joints[j].(children := joints[j].children + [|joints|])] + [JointRec(name, Some(j), [], offset, [], -1)]
  }

  /** A JOINT line appends a fresh child of joint j and indexes it by name: the arena invariants hold on. */
  lemma AddChildKeepsArena<V>(joints: seq<JointRec<V>>, index: map<string, nat>, decls: seq<nat>, declOf: seq<int>,
                              j: nat, name: string, offset: seq<V>)
    requires ArenaOk(joints, index, decls, declOf) && j < |joints|
    ensures ArenaOk(AddChild(joints, j, name, offset), index[name := |joints|], decls, declOf + [-1])
  {
    AddChildKeepsIndex(joints, index, j, name, offset);
    AddChildKeepsParents(joints, j, name, offset);
    AddChildKeepsChildren(joints, j, name, offset);
    AddChildKeepsLayout(joints, decls, declOf, j, name, offset);
  }

  lemma {:induction false} AddChildKeepsIndex<V>(joints: seq<JointRec<V>>, index: map<string, nat>,
                                                 j: nat, name: string, offset: seq<V>)
    requires IndexOk(joints, index) && j < |joints|
    ensures IndexOk(AddChild(joints, j, name, offset), index[name := |joints|])
  {
    var c := |joints|;
    var joints' := AddChild(joints, j, name, offset);
    var index' := index[name := c];
    forall i | 0 <= i < |joints'|
      ensures NameCovered(joints', index', i)
    {
      if i < c {
        assert NameCovered(joints, index, i);
        assert joints'[i].name == joints[i].name;
      }
    }
    forall n
      ensures NameIndexed(joints', index', n)
    {
      if n != name {
        assert NameIndexed(joints, index, n);
        if n in index {
          assert index'[n] == index[n] < c;
          assert joints'[index[n]].name == joints[index[n]].name;
        }
      }
    }
  }

  lemma {:induction false} AddChildKeepsParents<V>(joints: seq<JointRec<V>>, j: nat, name: string, offset: seq<V>)
    requires ParentsOk(joints) && j < |joints|
    ensures ParentsOk(AddChild(joints, j, name, offset))
  {
    var c := |joints|;
    var joints' := AddChild(joints, j, name, offset);
    forall i | 0 < i < |joints'|
      ensures ParentOf(joints', i)
    {
      if i < c {
        assert ParentOf(joints, i);
        var p := joints[i].parent.value;
        assert joints'[i].parent == joints[i].parent;
        assert joints[p].children <= joints'[p].children;
      } else {
        assert joints'[j].children == joints[j].children + [c];
      }
    }
  }

  lemma {:induction false} AddChildKeepsChildren<V>(joints: seq<JointRec<V>>, j: nat, name: string, offset: seq<V>)
    requires ChildrenOk(joints) && j < |joints|
    ensures ChildrenOk(AddChild(joints, j, name, offset))
  {
    var c := |joints|;
    var joints' := AddChild(joints, j, name, offset);
    forall i, k | 0 <= i < |joints'| && 0 <= k < |joints'[i].children|
      ensures ChildAt(joints', i, k)
    {
      if i == j && k == |joints[j].children| {
        assert joints'[i].children[k] == c;
      } else {
        assert i < c && k < |joints[i].children| && joints'[i].children[k] == joints[i].children[k];
        assert ChildAt(joints, i, k);
        var ch := joints[i].children[k];
        assert joints'[ch].parent == joints[ch].parent;
      }
    }
  }

  /** The new child has no channels, so the layout is unchanged. */
  lemma {:induction false} AddChildKeepsLayout<V>(joints: seq<JointRec<V>>, decls: seq<nat>, declOf: seq<int>,
                                                  j: nat, name: string, offset: seq<V>)
    requires Layout(joints, decls, declOf) && j < |joints|
    ensures Layout(AddChild(joints, j, name, offset), decls, declOf + [-1])
  {
    var joints' := AddChild(joints, j, name, offset);
    var declOf' := declOf + [-1];
    forall i | 0 <= i < |joints'|
      ensures SlotsAt(joints', decls, declOf', i)
    {
      if i < |joints| {
        assert SlotsAt(joints, decls, declOf, i);
      }
    }
    forall i, i' | 0 <= i < |joints'| && 0 <= i' < |joints'| && i != i'
      ensures DistinctDecls(declOf', i, i')
    {
      if i < |joints| && i' < |joints| {
        assert DistinctDecls(declOf, i, i');
      } else if i < |joints| {
        assert SlotsAt(joints, decls, declOf, i);
      }
    }
  }

  /** Changing anything of joint j but its links and name keeps the tree. */
  lemma {:induction false} UpdateKeepsTree<V>(joints: seq<JointRec<V>>, index: map<string, nat>, j: nat, jr: JointRec<V>)
    requires Tree(joints, index) && j < |joints|
    requires jr.name == joints[j].name && jr.parent == joints[j].parent && jr.children == joints[j].children
    ensures Tree(joints[j := jr], index)
  {
    var joints' := joints[j := jr];
    forall i | 0 < i < |joints'|
      ensures ParentOf(joints', i)
    {
      assert ParentOf(joints, i);
    }
    forall n
      ensures NameIndexed(joints', index, n)
    {
      assert NameIndexed(joints, index, n);
    }
    forall i | 0 <= i < |joints'|
      ensures NameCovered(joints', index, i)
    {
      assert NameCovered(joints, index, i);
    }
    forall i, k | 0 <= i < |joints'| && 0 <= k < |joints'[i].children|
      ensures ChildAt(joints', i, k)
    {
      assert ChildAt(joints, i, k);
      var c := joints[i].children[k];
      assert joints'[c].parent == joints[c].parent;
    }
  }

  /** A CHANNELS line of joint j takes the next block of slots, starting at the current total. */
  lemma {:induction false} SetChannelsKeepsLayout<V>(joints: seq<JointRec<V>>, decls: seq<nat>, declOf: seq<int>,
                                                    j: nat, d: ChannelsDecl)
    requires Layout(joints, decls, declOf) && j < |joints|
    requires |d.labels| <= d.count
    ensures Layout(joints[j := joints[j].(channels := d.labels, chanStart := Sum(decls))], decls + [d.count], declOf[j := |decls|])
    ensures Sum(decls + [d.count]) == Sum(decls) + d.count
  {
    var decls' := decls + [d.count];
    assert decls'[..|decls'| - 1] == decls;
    var joints' := joints[j := joints[j].(channels := d.labels, chanStart := Sum(decls))];
    var declOf' := declOf[j := |decls|];
    forall i | 0 <= i < |joints'|
      ensures SlotsAt(joints', decls', declOf', i)
    {
      if i != j {
        assert SlotsAt(joints, decls, declOf, i);
        if declOf[i] >= 0 {
          assert decls'[..declOf[i]] == decls[..declOf[i]];
        }
      }
    }
    forall i, i' | 0 <= i < |joints'| && 0 <= i' < |joints'| && i != i'
      ensures DistinctDecls(declOf', i, i')
    {
      assert SlotsAt(joints, decls, declOf, i) && SlotsAt(joints, decls, declOf, i');
      assert DistinctDecls(declOf, i, i');
    }
  }

  lemma SetChannelsKeepsArena<V>(joints: seq<JointRec<V>>, index: map<string, nat>, decls: seq<nat>, declOf: seq<int>,
                                 j: nat, d: ChannelsDecl)
    requires ArenaOk(joints, index, decls, declOf) && j < |joints|
    requires |d.labels| <= d.count
    ensures ArenaOk(joints[j := joints[j].(channels := d.labels, chanStart := Sum(decls))], index, decls + [d.count], declOf[j := |decls|])
    ensures Sum(decls + [d.count]) == Sum(decls) + d.count
  {
    SetChannelsKeepsLayout(joints, decls, declOf, j, d);
    UpdateKeepsTree(joints, index, j, joints[j].(channels := d.labels, chanStart := Sum(decls)));
  }

  /** An OFFSET line only replaces joint j's offset. */
  lemma SetOffsetKeepsArena<V>(joints: seq<JointRec<V>>, index: map<string, nat>, decls: seq<nat>, declOf: seq<int>,
                               j: nat, offset: seq<V>)
    requires ArenaOk(joints, index, decls, declOf) && j < |joints|
    ensures ArenaOk(joints[j := joints[j].(offset := offset)], index, decls, declOf)
  {
    var joints' := joints[j := joints[j].(offset := offset)];
    UpdateKeepsTree(joints, index, j, joints[j].(offset := offset));
    forall i | 0 <= i < |joints'|
      ensures SlotsAt(joints', decls, declOf, i)
    {
      assert SlotsAt(joints, decls, declOf, i);
    }
    forall i, i' | 0 <= i < |joints'| && 0 <= i' < |joints'| && i != i'
      ensures DistinctDecls(declOf, i, i')
    {
      assert DistinctDecls(declOf, i, i');
    }
  }

  /**
   * `after` is `before` once joint j's block has been read: the joints that
   * were there keep their records, except that joint j keeps its name and
   * parent but may gain children, an offset and channels; new joints may
   * follow.
   */
  ghost predicate Grew<V>(before: seq<JointRec<V>>, after: seq<JointRec<V>>, j: nat)
  {
    && j < |before| <= |after|
    && (forall i :: 0 <= i < |before| && i != j ==> after[i] == before[i])
    && after[j].name == before[j].name && after[j].parent == before[j].parent
    && before[j].children <= after[j].children
  }

  lemma GrewRefl<V>(joints: seq<JointRec<V>>, j: nat)
    requires j < |joints|
    ensures Grew(joints, joints, j)
  {
  }

  /** Reading the block of a new child `c` of j, after reading part of j's block, is still part of reading j's block. */
  lemma GrewByChild<V>(a: seq<JointRec<V>>, b: seq<JointRec<V>>, j: nat, name: string, offset: seq<V>, d: seq<JointRec<V>>)
    requires Grew(a, b, j)
    requires Grew(AddChild(b, j, name, offset), d, |b|)
    ensures Grew(a, d, j)
  {
    var b' := AddChild(b, j, name, offset);
    assert d[j] == b'[j];
    assert b[j].children <= b'[j].children;
  }

  /** Giving joint j a new offset or new channels is part of reading its block. */
  lemma GrewBySet<V>(a: seq<JointRec<V>>, b: seq<JointRec<V>>, j: nat, jr: JointRec<V>)
    requires Grew(a, b, j)
    requires jr.name == b[j].name && jr.parent == b[j].parent && jr.children == b[j].children
    ensures Grew(a, b[j := jr], j)
  {
  }

  lemma GrewTrans<V>(a: seq<JointRec<V>>, b: seq<JointRec<V>>, c: seq<JointRec<V>>, j: nat)
    requires Grew(a, b, j) && Grew(b, c, j)
    ensures Grew(a, c, j)
  {
  }
}
