# BVH angle patcher: a verified model

`patch_bvh_angles.py` reads a BVH motion-capture file. It patches the last frame: every rotation channel of the named joints takes its value from the second frame. Then it writes the file back out, keeping the header as written and regenerating the motion section. This project models that core in Dafny.

- **Reading the file.** Class `Parser.Bvh` holds the parser state. `Parse` runs the recursive block parser `ParseJointBlock` / `ParseBlockBody` / `ParseBlockLine`, with the running channel cursor as a field of the object. `ReadMotion` and `ReadFrames` then fill the motion table; the frame loop itself is `Parser.ReadRows`, which reads the rows one by one into a local list that becomes `motion`.
- **Pure reference definitions.** The functions in `Text` and `Hierarchy` give the line clean-up and the `OFFSET`, `CHANNELS`, `JOINT` and `End Site` rules. `Blocks.JointBlock` / `Blocks.BlockBody` / `Blocks.BlockLine` define what a joint block builds: the joints, the name index and the cursor (a `Blocks.Skeleton`) and the line after the block. `Parser.MotionSection` / `Parser.FrameRows` define the motion section, and `Parser.ParseLines` puts the header, the root block and the motion section together. Each parsing method is proved to return the same result and leave the same state as its function (`Blocks.Agrees`).
- **Joints.** The joints live in an arena: the sequence `joints`, where an index stands for a Python `Joint` object. `jointsByName` maps a name to its index.
- **Patching.** `Patch.ApplyAnglePatch` patches the motion table in place. It is proved equal to `Patch.PatchMotion` over the slot set `Patch.Targets`.
- **Writing.** `Writer.WriteWithNewMotion` produces the output as a sequence of lines. `Writer.MotionTextReadsBack` proves that the regenerated motion section parses back to the same frames, frame time and rows.

Parsing numbers (`int()`, `float()`) and the `:.6f` formatting are parameters of the model (`toInt`, `toValue`, `fmt`). The value type is a type parameter `V`.

## Model

| member | source | states |
|---|---|---|
| Text.SplitLines | patch_bvh_angles.py:170 | the pieces of `splitlines(keepends=True)` concatenate back to the text; each piece is cut right after its first line break (`\r\n` counting as one), only the last may lack a break, and a `\r` ending one piece is never followed by a `\n` starting the next |
| Text.StripTrims | patch_bvh_angles.py:35 | `strip()` removes exactly a run of whitespace at each end and keeps the middle untouched |
| Text.Words | patch_bvh_angles.py:50 | `split()` yields non-empty words without whitespace, and none at all exactly when the line is all whitespace |
| Text.WordsOfSpace | patch_bvh_angles.py:50 | whitespace in front of a string adds no words |
| Text.WordsOfWord | patch_bvh_angles.py:50 | a word followed by whitespace (or by nothing) is the first word, and the words of the rest follow it |
| Text.Upper | patch_bvh_angles.py:36 | `upper()` (also used at line 175) keeps the length; the character rule is `Text.UpperChar` |
| Text.UpperChar | patch_bvh_angles.py:175 | a lower-case ASCII letter becomes its capital, and any other character except U+0131 and U+017F is kept |
| Text.IntToString | patch_bvh_angles.py:191 | `str(frames)`: a minus sign exactly for a negative number, then decimal digits whose value is the number's magnitude, with no leading zero except in "0" itself |
| Text.ContainsAt | patch_bvh_angles.py:157 | the substring test `"rotation" in ch` holds exactly when the pattern occurs at some position |
| Text.WordsOfJoin | patch_bvh_angles.py:196 | joining words with single spaces and splitting again gives the same words back |
| Text.SplitLinesOfLines | patch_bvh_angles.py:187-197 | text written as newline-terminated lines splits back into those same lines |
| Hierarchy.CleanLines | patch_bvh_angles.py:35 | the cleaned lines are all stripped and non-empty, and there are no more of them than raw lines |
| Hierarchy.CleanLinesSnoc | patch_bvh_angles.py:35 | one more raw line adds its stripped form when that is not empty, and nothing otherwise |
| Hierarchy.CleanLinesNoBlank | patch_bvh_angles.py:35 | with no blank lines, cleaning keeps every line, stripped, in place |
| Hierarchy.ToValues | patch_bvh_angles.py:118 | `map(float, ...)` succeeds exactly when every token converts; on failure it names a token that does not |
| Hierarchy.OffsetLine | patch_bvh_angles.py:49-52 | the offset has one value per token of `parts[1:4]`, each the conversion of the token at the same place after `OFFSET` |
| Hierarchy.ChannelsLine | patch_bvh_angles.py:54-57 | succeeds exactly when a second token exists and converts to a count of 0 or more; the labels are `parts[2:2+n]`: the tokens after the count, at most `count` of them |
| Hierarchy.EndSite | patch_bvh_angles.py:69-80 | an End Site block is accepted exactly when `{`, an OFFSET line and `}` follow, and parsing resumes four lines on; each missing piece gives its own error |
| Hierarchy.ChannelSlotBound | patch_bvh_angles.py:54-59 | every joint's slots `chan_start + k` lie below the final cursor, and a joint without a CHANNELS line has start -1 and no channels |
| Hierarchy.SlotsDisjoint | patch_bvh_angles.py:54-59 | two different joints with channels own disjoint slot ranges |
| Hierarchy.InitialArena | patch_bvh_angles.py:92-95 | the root alone, registered under its name, satisfies the tree and layout invariant |
| Hierarchy.AddChild | patch_bvh_angles.py:63-66 | a JOINT line appends a fresh child with the parent set, adds its index to the parent's children, and changes no other joint |
| Hierarchy.AddChildKeepsArena | patch_bvh_angles.py:61-66 | adding a child keeps the name index, parent/child links and channel layout valid |
| Hierarchy.SetChannelsKeepsArena | patch_bvh_angles.py:54-59 | a CHANNELS line keeps the arena valid and moves the cursor forward by the count |
| Hierarchy.SetOffsetKeepsArena | patch_bvh_angles.py:49-52 | an OFFSET line keeps the arena valid |
| Hierarchy.SumPrefixMonotone | patch_bvh_angles.py:58-59 | the cursor never moves back: a later declaration starts at or after the end of an earlier one |
| Parser.FrameRows | patch_bvh_angles.py:115-123 | on success, one row per remaining frame, each `width` values converted from its line; otherwise the frame that ran off the end or had the wrong width is named |
| Parser.FrameRow | patch_bvh_angles.py:116-123 | frame f is read from line `start + f`: past the last line it is a truncation error for frame f, a token that does not convert gives that token's number error, a row of the wrong width is a width error naming f and both widths, and otherwise the row is the converted values |
| Parser.MotionSection | patch_bvh_angles.py:98-123 | the motion section needs MOTION, Frames: and Frame Time: lines in that order; a Frames: line with a valid count but no Frame Time: line after it gives NoFrameTime; on success the frame count and frame time come from their tokens and there are `frames` rows of `width` values, row k read from line `i + 3 + k` |
| Parser.ParseLines | patch_bvh_angles.py:33-123 | `_parse` as a function: the empty input or a missing HIERARCHY gives NotBvh, a missing second line OutOfLines, a missing ROOT NoRoot; on success there is a root, and the motion has `frames` rows as wide as the final channel cursor |
| Parser.RootAndMotion | patch_bvh_angles.py:89-123 | after the ROOT line: on success the arena is non-empty, and the motion has `frames` rows as wide as the final channel cursor |
| Parser.Bvh.constructor | patch_bvh_angles.py:23-31 | a new object holds the text, its cleaned lines and an empty state |
| Parser.Bvh.Parse | patch_bvh_angles.py:33-123 | the empty input and a first line without HIERARCHY give NotBvh; a missing second line and a missing ROOT give their errors; it fails exactly when `ParseLines` does, with the same error, and on success the joints, name index, cursor, frames, frame time and motion are those of `ParseLines`; the motion table has `frames` rows of `total_channels` values, and the root carries the ROOT name and no parent |
| Parser.Bvh.ParseRoot | patch_bvh_angles.py:92-123 | from the root's name on, the object ends in the state `RootAndMotion` describes, or fails with its error |
| Blocks.JointBlock | patch_bvh_angles.py:42-87 | on success the block opened with `{` and ended after a closing `}` or at the end of the lines, and the arena only grows |
| Blocks.BlockBody | patch_bvh_angles.py:47-87 | on success the loop stops right after a closing `}` or at the end of the lines, and the arena only grows |
| Blocks.BlockLine | patch_bvh_angles.py:48-86 | on success each line moves the index forward and the arena only grows; `}` moves on by one and changes nothing |
| Parser.Bvh.ParseJointBlock | patch_bvh_angles.py:42-87 | returns the error, or the next index and the joints, name index and cursor, that `JointBlock` gives; a block must open with `{`; the joint keeps its name and parent and only gains children; the arena stays valid |
| Parser.Bvh.ParseBlockBody | patch_bvh_angles.py:47-87 | the loop over a block's lines agrees with `BlockBody` and keeps the arena valid; it stops after the closing `}` or at the end of the lines |
| Parser.Bvh.ParseBlockLine | patch_bvh_angles.py:48-86 | agrees with `BlockLine`; an OFFSET line sets the joint's offset, a CHANNELS line gives it the labels and the current cursor as its start and moves the cursor on by the count, and a JOINT line appends a child with that name and this parent, or fails with MissingToken; each error of the line's rule is passed on; an End Site block and an unknown line change neither the joints nor the cursor |
| Parser.Bvh.ReadJointLine | patch_bvh_angles.py:61-68 | a JOINT line with no name is MissingToken; otherwise a new joint with the given name and parent is appended, listed among the parent's children, and its block is read, as `BlockLine` gives |
| Parser.Bvh.SetOffset | patch_bvh_angles.py:49-53 | only the joint's offset changes |
| Parser.Bvh.SetChannels | patch_bvh_angles.py:54-60 | the joint takes the labels and the current cursor as its start, and the cursor moves forward by the count |
| Parser.Bvh.AddJoint | patch_bvh_angles.py:61-67 | a child is appended under its parent and the name now maps to it |
| Parser.Bvh.ReadMotion | patch_bvh_angles.py:98-123 | reading the motion section agrees with `MotionSection`: the same error, or the same frames, frame time and rows, and `total_channels` equals the cursor |
| Parser.Bvh.ReadFrames | patch_bvh_angles.py:113-123 | `motion` becomes the rows `FrameRows` reads from frame 0, or the parse fails with its error |
| Parser.ReadRows | patch_bvh_angles.py:115-123 | the frame loop's result is exactly `FrameRows` from frame 0: the same error, or the same rows |
| Parser.Load | patch_bvh_angles.py:22-31 | `BVH(text)` fails exactly when `ParseLines` of the text's cleaned lines does, with the same error; on success it returns a fresh object over the text, in the parsed state, holding the joints, name index, cursor, frames, frame time and motion `ParseLines` gives |
| Patch.RotationSlotsExactly | patch_bvh_angles.py:154-159 | a joint's copied slots are exactly `chan_start + k` for the channels whose label contains "rotation" |
| Patch.TargetsExactly | patch_bvh_angles.py:144-159 | a slot is copied exactly when some name selects a joint with channels and the slot is one of its rotation channels |
| Patch.PatchMotion | patch_bvh_angles.py:138-162 | patching keeps the number of frames, every frame but the last, and the width of the last |
| Patch.ApplyAnglePatch | patch_bvh_angles.py:130-162 | fails exactly when there are fewer than two frames, and then changes nothing; otherwise the motion becomes `PatchMotion` of the old motion over the targeted slots, and the frame count and the shape invariant are kept |
| Patch.TargetsInRange | patch_bvh_angles.py:154-159 | every copied slot is a valid index into a row, below `total_channels` |
| Patch.TargetSlotOwner | patch_bvh_angles.py:144-159 | a copied slot owned by a joint is a rotation channel of that joint, and that joint is selected by one of the names |
| Patch.PatchSlot | patch_bvh_angles.py:141-162 | channel k of joint i in the last frame takes frame 1's value if it is a rotation channel of a named joint with channels, and keeps its own value otherwise |
| Patch.TwoFramesUnchanged | patch_bvh_angles.py:138-142 | with exactly two frames the last frame is frame 1, so the patch changes nothing |
| Patch.PatchIdempotent | patch_bvh_angles.py:138-162 | applying the patch a second time gives the same motion as applying it once |
| Writer.FirstMotionLine | patch_bvh_angles.py:173-177 | the result is the first raw line whose stripped, upper-cased form starts with MOTION, and is absent exactly when no line does |
| Writer.FindMotion | patch_bvh_angles.py:172-177 | the search loop with its break finds exactly `FirstMotionLine` |
| Writer.WriteWithNewMotion | patch_bvh_angles.py:165-197 | fails exactly when no MOTION line exists; otherwise the output is the raw lines before it, then MOTION, Frames:, Frame Time: and one line per motion row |
| Writer.FrameLines | patch_bvh_angles.py:195-197 | the loop writes exactly one formatted line per motion row, in order |
| Writer.RowLinesAt | patch_bvh_angles.py:195-197 | frame f's output line is the values of row f, formatted and joined by spaces |
| Writer.HeaderIsPrefix | patch_bvh_angles.py:182-187 | the header written is a verbatim prefix of the original text |
| Writer.WordLineReadsBack | patch_bvh_angles.py:196-197 | a written row line strips and splits back into the formatted values |
| Writer.MotionTextReadsBack | patch_bvh_angles.py:189-197 | the regenerated motion section, cleaned and parsed by the motion rules of `_parse`, gives back the same frames, frame time and rows when formatting and parsing are inverse and every frame has at least one value (or there are no frames) |
| ChannelsAsWritten.PySliceNonNegative | patch_bvh_angles.py:57 | for a count of 0 or more, Python's slice `parts[2:2+n]` is the corrected model's slice |
| ChannelsAsWritten.NegativeCountOverlaps | patch_bvh_angles.py:54-59 | as written, a negative count moves the cursor back, so two joints end up sharing slots |
| ChannelsAsWritten.NegativeCountExceedsTotal | patch_bvh_angles.py:56-59 | as written, `CHANNELS -3` followed by three labels gives the joint two channels while the total becomes -3 |

## Left out

- The command line (`main`), reading and writing files, and the warnings printed for skipped joint names are I/O and are not modelled. A skipped name simply contributes no slots to `Patch.Targets`.
- `Joint.__repr__` is only used for display and is not modelled.
- `int()` and `float()` on tokens are the parameters `toInt` and `toValue`, which return `None` where Python raises. The `:.6f` formatting is the parameter `fmt`, and the value type is abstract, so floating point is not modelled.
- Exceptions become `Result`/`Outcome` errors. An `IndexError` from reading past the last line (for example a missing token after `ROOT`, or a block that runs to the end of the file) becomes `OutOfLines` or `MissingToken`. What the object holds after a failed parse is not specified.
- Joints are records in an arena indexed by position, not linked objects. `joints_by_name` maps a name to an index.
- Patch.ApplyAnglePatch: `start_frame` and `end_frame` are the same list when there are exactly two frames. The model patches the last row as a value and proves with `Patch.TwoFramesUnchanged` that the result is the same, so the aliasing itself is not represented.
- Text.Upper: only ASCII letters and the two characters whose upper case is an ASCII letter (U+0131, U+017F) are upper-cased. Other Unicode case mappings are not modelled. The contract only gives the length; the character rules are on `Text.UpperChar`.
- Hierarchy.ChannelsLine: a negative channel count is rejected. The source accepts it; see Findings.

## Findings

| source | as written | input that shows it | evidently intended | confidence | as-written member | corrected member |
|---|---|---|---|---|---|---|
| patch_bvh_angles.py:54-59 | `n = int(parts[1])` is accepted when negative: the cursor moves back by `|n|` and `parts[2:2+n]` counts its stop from the end | a block with `CHANNELS 3 Xrotation Yrotation Zrotation`, then a joint with `CHANNELS -2`, then a joint with `CHANNELS 3 Xrotation Yrotation Zrotation`: the first joint owns slots 0..2 and the third 1..3, so patching one overwrites the other; `CHANNELS -3 Xrotation Yrotation Zrotation` alone gives two channels with a total of -3 | channel counts are 0 or more, so every joint owns its own slots, all below `total_channels` | not executed | ChannelsAsWritten.NegativeCountOverlaps | Hierarchy.SlotsDisjoint |

The corrected step is `Hierarchy.ChannelsLine`, which the parser uses. Because it rejects a negative count, `Hierarchy.SlotsDisjoint` and `Hierarchy.ChannelSlotBound` hold for every parsed file. The as-written step is `ChannelsAsWritten.SlotRanges`, which keeps Python's negative-stop slicing (`ChannelsAsWritten.PySlice`).
