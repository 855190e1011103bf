# flexbox for reportlab, modelled in Dafny

This project models the layout core of a flexbox-style layout engine for reportlab
and proves properties of the model. The repository holds two versions of the engine,
and each version has its own modules:

- **First engine** (`flexbox/`):
  - `Measurement`: lengths made of a static part and a part relative to a base
    (`FlexMeasurement`), their compound sums (`CompoundFlexMeasurement`) and four-sided
    frames (`FlexFrame`).
  - `Options`: how a row or column aggregates item sizes, and where each
    alignment policy (`FlexStart`, `FlexEnd`, `FlexCenter`, `SpaceAround`, `SpaceEvenly`,
    `SpaceBetween`, `Stretch`) places items along an axis.
  - `LineBreaking`: the greedy line breaking of `FlexBox.wrap_content`.
  - `Flex`: `FlexItem.wrap`, `FlexBox.wrap_content`, `draw_content` and `split` as
    functions of an item's configuration.
  - `FlexObjects`: the class `FlexItem`, whose methods update its fields step by step.
    Each method is proved to agree with the functions of `Flex`.
- **Draft second engine** (`flexbox2/`):
  - `Measurement2`: `FlexMeasurement2`, `Frame2` and the frame descriptor.
  - `Flex2`: the draft box-sizing algorithm `FlexItem.wrap`, as a function
    (`WrapOf`) and as the class `Flex2.FlexItem`.
- **Shared helpers**: `Common` (Option, Result, the errors Python raises), `Reals`
  (sums, max, min) and `Decimal` (Python's `float()` on plain decimal strings).

Lengths are `real`. An exception is an `Err` of `Result`. The ways the code can
raise are each modelled:
- a base that has not been set;
- a value `parse` refuses;
- a division by zero in the automatic frame base;
- `min` of nothing in the second engine's automatic size;
- drawing or splitting a box before it has been wrapped.

The policies in `flexbox/options.py` declare a third argument, `key`, with no default.
Every caller, in `draw_content` and in `tests/tests_options.py`, passes only a sequence
of lengths and the available length. As written, each of those calls raises TypeError
(see "## Findings"). The model reads `key` as the identity, the reading those callers
evidently intend, and its policies take the lengths themselves.

Where the tests and the code disagree, the model follows the code:
- With more content than room, `SpaceAround`, `SpaceEvenly` and `SpaceBetween` overlap
  the items (`Options.PointsOverflowExamples`). They do not centre the block as
  `tests/tests_options.py` expects.
- In the second engine, `frame_height` counts the border's left and right sides, not
  its top and bottom (`Flex2.FrameHeightCountsBorderWidth`).

## Model

Rows whose last column begins "proof step" unfold one stage of an operation for the proofs of the methods; the other rows state what the code promises.

| member | source | states |
|---|---|---|
| Measurement.FlexMeasurement.Base | flexbox/measurement.py:53-57 | the base getter succeeds exactly when a base is set, and returns it |
| Measurement.FlexMeasurement.Float | flexbox/measurement.py:71-72 | float() succeeds exactly when a base is set, and is then static + relative × base |
| Measurement.Value.Float | flexbox/measurement.py:10-11 | float() of a measurement or compound succeeds exactly when every component has a base, and is then the resolved length |
| Measurement.Value.Base | flexbox/measurement.py:21-23 | reading the base of a compound raises NotImplementedError |
| Measurement.Value.WithBase | flexbox/measurement.py:25-28 | setting the base binds every component, and a single measurement stays single and a compound stays compound |
| Measurement.SumFloatsSplit | flexbox/measurement.py:10-19 | the floats of components bound to b add up to their static sum plus their relative sum times b |
| Measurement.CompoundResolves | flexbox/measurement.py:10-28 | a compound bound to b floats to its signed static sum plus its signed relative sum times b |
| Measurement.BoundCompound | flexbox/measurement.py:10-11 | a bound compound floats to the sum of its positive floats less the sum of its negative floats |
| Measurement.SingleWithBase | flexbox/measurement.py:59-72 | binding a single measurement keeps its parts and truthiness, and it then floats to static + relative × base |
| Measurement.CompoundWithBase | flexbox/measurement.py:25-28 | binding a compound keeps its signed parts and truthiness, and it then floats to static + relative × base |
| Measurement.ResolveWithBase | flexbox/measurement.py:5-72 | for any measurement, setting the base keeps static, relative and truthiness, and float() is static + relative × base |
| Measurement.AnySpecifiedConcat | flexbox/measurement.py:43-44 | a chain of components is true exactly when one of the two parts is |
| Measurement.Parse | flexbox/measurement.py:119-136 | an existing measurement is returned unchanged; an unsupported type raises; anything else gives a new single measurement with no base |
| Measurement.ParseNone | flexbox/measurement.py:124-125 | None parses to a false measurement that floats to 0 against any base |
| Measurement.ParseNumberIsAbsolute | flexbox/measurement.py:127-128 | a number parses to a true measurement that floats to itself against any base |
| Measurement.ParsePercentValue | flexbox/measurement.py:130-132 | "n%" parses to static 0 and relative n/100, with no base |
| Measurement.RelativeResolves | flexbox/measurement.py:71-72 | a purely relative measurement with base b resolves to its fraction of b |
| Measurement.StaticResolves | flexbox/measurement.py:71-72 | a purely static measurement resolves to its static part whatever the base |
| Measurement.RelativeFloat | flexbox/measurement.py:59-72 | a purely relative measurement, once its base is set, floats to its fraction of the base |
| Measurement.ParseAbsoluteValue | flexbox/measurement.py:133-134 | "n" and "-n" parse to the absolute lengths n and -n |
| Measurement.ParseAbsoluteText | flexbox/measurement.py:133-134 | "n" and "-n" float to n and -n against any base |
| Measurement.Equals | flexbox/measurement.py:90-101 | against a measurement, equality compares static, relative and base; against anything but a measurement or a float it is false |
| Measurement.EqualsFloat | flexbox/measurement.py:99-100 | against a float, equality compares the resolved length, and raises when no base is set |
| Measurement.TruthyFloats | flexbox/measurement.py:140-140 | no more floats are taken than there are arguments |
| Measurement.TruthyFloatsSpec | flexbox/measurement.py:138-152 | the floats taken are exactly those of the true arguments, and none are taken exactly when no argument is true |
| Measurement.MinOfSpec | flexbox/measurement.py:146-152 | min is None exactly when no argument is true, and is otherwise the float of a true argument that is at most every true argument's float |
| Measurement.MaxOfSpec | flexbox/measurement.py:138-144 | max is None exactly when no argument is true, and is otherwise the float of a true argument that is at least every true argument's float |
| Measurement.Add | flexbox/measurement.py:74-79 | the sum of two measurements is a compound |
| Measurement.Plus | flexbox/measurement.py:30-35 | a right operand that is not a measurement is parsed first, and a failed parse raises |
| Measurement.AsCompound | flexbox/measurement.py:5-19 | every measurement has the static part, relative part, bound state and float of the compound of its components |
| Measurement.AddIsCompound | flexbox/measurement.py:30-35 | every sum concatenates the positive components of both operands and the negative ones, in order |
| Measurement.CompoundJoin | flexbox/measurement.py:30-32 | joining two compounds adds their static parts, relative parts and bound floats |
| Measurement.AddSpec | flexbox/measurement.py:74-79 | a + b has the summed static and relative parts, and once both are bound it floats to float(a) + float(b) |
| Measurement.AddTruthy | flexbox/measurement.py:43-44 | a + b is true exactly when a or b is |
| Measurement.SubAsWritten | flexbox/measurement.py:81-85 | `a - other` as written, for single and compound left operands alike: a difference exists exactly when the right operand is a measurement; other operands give None |
| Measurement.Sub | flexbox/measurement.py:81-85 | the corrected subtraction, which departs from lines 82-83 for a single measurement minus a compound: a difference exists exactly when the right operand is a measurement; other operands give None |
| Measurement.SubAgreesElsewhere | flexbox/measurement.py:37-41 | the corrected subtraction is the written one except for a single measurement minus a compound |
| Measurement.SubResolves | flexbox/measurement.py:37-41 | once bound, a - b floats to float(a) - float(b) |
| Measurement.SubAsWrittenReversesSign | flexbox/measurement.py:82-83 | as written, a single x minus a compound c floats to -c - x |
| Measurement.SubAsWrittenCounterexample | flexbox/measurement.py:82-83 | as written, 10 minus the compound of 3 is -13 where the corrected difference is 7 |
| Measurement.AddWithBase | flexbox/measurement.py:25-28 | binding a sum binds both operands |
| Measurement.FrameSpanBases | flexbox/measurement.py:205-206 | for a frame whose sides are separate objects, as `parse` makes them of strings, numbers and None, setting frame.width.base binds right and left and leaves the height alone (and the reverse), so that the span floats to static + relative × base |
| Measurement.ShorthandSides | flexbox/measurement.py:178-198 | 1 to 4 parsable values give top = 1st; right = 2nd or else 1st; bottom = 3rd or else 1st; left = 4th or else right |
| Measurement.ShorthandOtherCounts | flexbox/measurement.py:199-206 | any other number of values gives the frame with every side None, whose width and height are false |
| Measurement.ShorthandFails | flexbox/measurement.py:165-166 | a value of the shorthand that does not parse makes the frame raise |
| Measurement.AssignFrame | flexbox/measurement.py:253-260 | a FlexFrame is stored as it is, an iterable is spread as the shorthand, and an unsupported single value raises TypeError |
| Measurement.AssignOneToAllSides | flexbox/measurement.py:254-256 | a single string, number, measurement or None goes on all four sides (a measurement object is then shared by the sides; see "## Left out") |
| Measurement2.Measure2.Base | flexbox2/measurement.py:10-14 | the base getter succeeds exactly when a base is set, and returns it |
| Measurement2.Measure2.WithBase | flexbox2/measurement.py:16-18 | the setter keeps both parts and sets the base |
| Measurement2.FloatSpec | flexbox2/measurement.py:20-29 | float() raises "Base not set." exactly while no base is set, and is otherwise static + relative × base with missing parts read as 0 |
| Measurement2.UnspecifiedIsZero | flexbox2/measurement.py:20-38 | a measurement with neither part is false and floats to 0 against any base |
| Measurement2.ParseSpec | flexbox2/measurement.py:40-54 | a measurement is returned unchanged; None is unspecified; a number v is true with static v and relative 0; a string without '%' and any other type raise; a parsed string is relative; nothing new has a base |
| Measurement2.ParsePercent | flexbox2/measurement.py:51-52 | "n%" parses to static 0 and relative n/100 |
| Measurement2.RelativeFloat | flexbox2/measurement.py:16-29 | a purely relative measurement, once its base is set, floats to its fraction of the base |
| Measurement2.ParseNumberIsAbsolute | flexbox2/measurement.py:48-49 | a number floats to itself against any base |
| Measurement2.PlusMinusSpec | flexbox2/measurement.py:31-35 | + and - succeed exactly when both operands have a base, return the plain sum and difference of the floats, commute (+) and undo each other |
| Measurement2.TruthyFloatsSpec | flexbox2/measurement.py:56-70 | the floats taken are exactly the floats of the true arguments; taking them raises exactly when a true argument has no base |
| Measurement2.MinMaxSpec | flexbox2/measurement.py:56-70 | min and max raise only for a true argument without a base; they are None exactly when nothing is true; otherwise they are the float of a true argument that bounds every true float |
| Measurement2.FrameWithBase | flexbox2/measurement.py:122-141 | once the frame's base is set it reads back, and width and height are the static sums plus the relative sums times the base |
| Measurement2.FrameWidthNeedsBase | flexbox2/measurement.py:135-137 | the width raises while the left side has no base |
| Measurement2.ShorthandSides | flexbox2/measurement.py:95-115 | 1 to 4 values give the frame exactly when every value parses, with the CSS side assignment and no base |
| Measurement2.ShorthandOtherCounts | flexbox2/measurement.py:116-120 | any other number of values gives the frame with every side None |
| Measurement2.ShorthandExample | flexbox2/tests/tests_measurements.py:25-26 | Frame2(5, "10%", 10, 15) has sides (5, 0), (0, 0.1), (10, 0) and (15, 0) |
| Measurement2.AssignFrameSpec | flexbox2/measurement.py:144-155 | an assigned value is parsed once and goes on all four sides; a tuple raises; None and a never-assigned frame resolve to zero width and height |
| Options.Widths | flexbox/flex.py:187-188 | widths(items) has one entry per item, the item's width |
| Options.Heights | flexbox/flex.py:191-192 | heights(items) has one entry per item, the item's height |
| Options.ColumnIsTransposedRow | flexbox/options.py:5-37 | Column aggregates as Row does with width and height exchanged: each sum becomes a max and each max a sum |
| Options.RowLineBounds | flexbox/options.py:5-20 | a row line of items of non-negative width is at least as wide as each item, and as tall as its tallest item |
| Options.AdvanceAt | flexbox/options.py:45-50 | the loop of points puts item i at the start plus the lengths before it plus i gaps |
| Options.Points | flexbox/options.py:40-121 | every policy gives one offset per item |
| Options.PointIsSinglePoints | flexbox/options.py:40-82 | point(length, available) of FlexStart, FlexEnd and FlexCenter equals the single offset points gives one item |
| Options.PointsPacked | flexbox/options.py:40-121 | every policy places the items end to end from its start, one policy-specific gap apart |
| Options.PointsStep | flexbox/options.py:40-121 | consecutive offsets differ by the earlier item's length plus the gap |
| Options.SpacingAddsUp | flexbox/options.py:40-121 | the leading space, the items, the gaps and the trailing space add up to the available length for every policy and any number of items |
| Options.PointsMargins | flexbox/options.py:40-121 | the first item sits at the policy's leading space, and the last ends the trailing space before the available length |
| Options.SpacingNonNegative | flexbox/options.py:40-121 | when the items fit, no policy leaves negative space before, between or after them |
| Options.PointsWithin | flexbox/options.py:40-121 | when non-negative items fit, every policy keeps every item within [0, available] |
| Options.FlexStartIgnoresAvailable | flexbox/options.py:45-50 | FlexStart's offsets do not depend on the available length |
| Options.PointsExamples | tests/tests_options.py:21-90 | FlexEnd gives 70, 80, 90; SpaceAround gives 20, 70; SpaceBetween gives 0, 40, 90 on the tests' inputs |
| Options.PointsOverflowExamples | flexbox/options.py:85-121 | with negative leftover the spacing policies overlap the items: -15, -20, -15 (SpaceEvenly), 0, -20, -30 (SpaceBetween) and -12.5, 62.5 (SpaceAround) |
| Options.StretchLines | flexbox/flex.py:276-277 | stretching keeps one extent per line |
| Options.StretchSpec | flexbox/flex.py:276-277 | stretched lines never shrink and all grow by the same amount; they fill the available length whenever there is room, and are unchanged when there is none |
| Options.StretchFills | flexbox/flex.py:276-277 | with room to spare, the stretched lines add up to the available length |
| LineBreaking.LineEnd | flexbox/flex.py:249-255 | a line never ends before its last item so far, nor after the last item |
| LineBreaking.LinesFrom | flexbox/flex.py:246-256 | the lines from an item on are non-empty runs of consecutive items that together list those items in order |
| LineBreaking.Lines | flexbox/flex.py:246-256 | the lines are non-empty runs of consecutive items that together list every item once, in order |
| LineBreaking.BuildLines | flexbox/flex.py:246-256 | the loop with its running row length produces exactly Lines |
| LineBreaking.ContinueRest | flexbox/flex.py:249-255 | run on from an open line, the loop produces that line and the lines after it |
| LineBreaking.LinesGreedy | flexbox/flex.py:249-255 | every prefix of two or more items of a line fits, and each line closes only because the next item would overflow it |
| LineBreaking.ItemsOfSharedLine | flexbox/flex.py:249-255 | with non-negative lengths, every item of a line of two or more is no longer than the available length |
| LineBreaking.OversizedAlone | flexbox/flex.py:249-255 | an item longer than the available length is alone on its line |
| LineBreaking.LineFits | flexbox/flex.py:249-255 | a line of two or more items fits in the available length |
| LineBreaking.LinesExample | tests/tests_flexbox.py:204-216 | widths 40, 40, 40, 120 and 60 in 120 break into lines of three, one and one items |
| Flex.SideSum | flexbox/flex.py:42-47 | a frame side margin + border + padding has the three static parts, the three relative parts, and is true when any of them is |
| Flex.ComposeFrameSides | flexbox/flex.py:42-47 | the composed frame's width and height spans have the static and relative parts of margin, border and padding together |
| Flex.NewSizing | flexbox/flex.py:27-47 | __init__ succeeds exactly when every measurement and frame argument parses, and then holds each parsed value in its attribute; otherwise it raises what the first failing assignment raises, in the order of lines 31-41 |
| Flex.SizingOfFails | flexbox/flex.py:31-41 | when the assignments fail, the one that raises is the first failing one in assignment order |
| Common.FirstFailureAt | flexbox/flex.py:31-41 | the first failure of a run of assignments is that of the first one that fails |
| Flex.DefaultSizing | flexbox/flex.py:27-47 | with every argument None, no size is set and the frame is empty and resolves to 0 |
| Flex.MarginRelativeExample | tests/tests_flexbox.py:688-694 | a 50 x 25 box with a margin of "10%" offers its content 40 x 20 |
| Flex.TenPercent | flexbox/measurement.py:129-131 | "10%" parses to a relative part of a tenth and no static part |
| Flex.Extent | flexbox/flex.py:63-64 | a value bound to b floats to its extent against b |
| Flex.MinOfTwo | flexbox/flex.py:63-64 | min(max, size) is None with neither set, the set one's float with one set, and the smaller float with both set |
| Flex.PreferredSpec | flexbox/flex.py:63-64 | the initial size is the available size or the float of a set max or size, at most each of them, and is the size when that is non-zero and no larger than the max |
| Flex.ClampSpec | flexbox/flex.py:85-93 | a set maximum bounds the size; a set minimum bounds it unless it exceeds the maximum, which wins; with neither the size is unchanged |
| Flex.AutoBase | flexbox/flex.py:78-78 | the automatic frame base raises ZeroDivision exactly when the frame's relative part is 1 |
| Flex.AutoBaseFixedPoint | flexbox/flex.py:77-83 | the automatic size equals its own frame base, and the frame at that size leaves exactly the content inside |
| Flex.Collect | flexbox/flex.py:237-238 | the children's wraps succeed together, or the box fails with the first child's error |
| Flex.Sizes | flexbox/flex.py:187-192 | one size per wrapped child, its width and height |
| Flex.MainLengths | flexbox/flex.py:240-244 | one length per item along the direction |
| Flex.BreakRows | flexbox/flex.py:240-258 | the rows, with wrapping or without, are non-empty runs that cover every item once, in order |
| Flex.LineOf | flexbox/flex.py:260-269 | a line keeps the indices of its items |
| Flex.MakeLines | flexbox/flex.py:260-269 | one sized line per row, in order |
| Flex.ArrangeRows | flexbox/flex.py:240-258 | the arranged lines hold the rows the line breaking chose |
| Flex.ArrangeLines | flexbox/flex.py:246-258 | the arranged lines cover the children once, in order, and the children are kept |
| Flex.NoWrapContent | flexbox/flex.py:258-271 | without wrapping a row box is as wide as its children together and as tall as the tallest; a column box the reverse |
| Flex.WrappedLinesFit | flexbox/flex.py:240-256 | with wrapping, each line of two or more items fits along the direction, and each break is forced by the next item |
| Flex.WrapSteps | flexbox/flex.py:57-103 | wrap measures the content in the area it offers and fails exactly when that or the sizing after it fails |
| Flex.WrapResult | flexbox/flex.py:95-103 | a wrap keeps the content size it measured and binds the frame's spans to the final width and height |
| Flex.FinishResult | flexbox/flex.py:77-103 | the sizing after the content keeps the content and binds the frame to the final size |
| Flex.FixedItemWraps | flexbox/flex.py:57-103 | an item given only a non-zero width w and height h wraps to w x h whatever it is offered |
| Flex.MinSmallFixedContentExample | tests/tests_flexbox.py:787-795 | a box with a minimum of 200 x 100 around one 100 x 50 item wraps to 200 x 100 when offered 1000 x 1000 |
| Flex.MinBoxWraps | flexbox/flex.py:57-103 | the wrap of that box, once its arguments are parsed: the content is offered the whole 1000 x 1000, measures 100 x 50, and the minimum replaces it |
| Flex.OneChild | flexbox/flex.py:233-238 | a box of one child that wraps arranges that child's wrap |
| Flex.ArrangeOne | flexbox/flex.py:240-271 | one child without wrapping makes content of its own size |
| Flex.AutoAxisToMinimum | flexbox/flex.py:77-90 | an automatic axis in no frame takes the content's length, which a larger absolute minimum replaces |
| Flex.FixedWidth | flexbox/flex.py:63-64 | a set width with no minimum or maximum is its float, or the available width when that is 0, whatever the content |
| Flex.AutoWidth | flexbox/flex.py:77-79 | an automatic width is content plus frame, with the frame's relative part taken of that very width |
| Flex.FinishAutoWidth | flexbox/flex.py:77-79 | the sizing after the content makes an automatic width leave exactly the content inside the frame |
| Flex.AutoWidthUndetermined | flexbox/flex.py:77-78 | an automatic width with a frame relative part of 1 raises |
| Flex.WidthBounds | flexbox/flex.py:85-88 | the final width is at most a set maximum and at least a set minimum that is no larger than the maximum |
| Flex.ChildrenWrapped | flexbox/flex.py:237-238 | each child of a box is wrapped against the box's content area |
| Flex.ItemLengths | flexbox/flex.py:281-294 | one length per item of a line |
| Flex.CrossExtents | flexbox/flex.py:275-290 | the line heights in a row box and the line widths in a column box |
| Flex.AlignedExtents | flexbox/flex.py:275-292 | one extent per line, stretched when align_content is Stretch |
| Flex.PlaceLine | flexbox/flex.py:279-297 | one position per item of a line, for that item |
| Flex.PlaceAll | flexbox/flex.py:278-297 | each line is placed at its own offset and extent |
| Flex.Draw | flexbox/flex.py:273-297 | draw_content as intended, with Stretch sharing out the free space and each policy's `key` the identity: drawing raises exactly when the box has no lines yet |
| Flex.DrawAsWrittenFailsOnStretch | flexbox/flex.py:276-277 | as written, drawing a wrapped box with align_content Stretch raises AttributeError, where the intended Draw places the items |
| Flex.DrawAsWrittenMissingKey | flexbox/flex.py:279-281 | as written, drawing a wrapped box with any other align_content raises TypeError, because `points` is called without its `key`; the intended Draw places the items |
| Flex.DrawPlacesEveryItem | flexbox/flex.py:279-297 | drawing the lines of a wrap places every child exactly once, in order |
| Flex.DrawnItems | flexbox/flex.py:279-297 | drawing places the items of the lines, line after line |
| Flex.Split | flexbox/flex.py:299-332 | a keep-together box never splits, and splitting before a wrap raises |
| Flex.Cut | flexbox/flex.py:311-314 | the first box gets at most the lines there are |
| Flex.CutSpec | flexbox/flex.py:311-314 | with non-negative heights, the lines before the cut stay below the available height and the next line reaches it |
| Flex.SplitLinesPartition | flexbox/flex.py:307-316 | the lines before the cut go to the first box and the rest to the second, which together keep every item in order |
| Flex.SplitItemsPartition | flexbox/flex.py:318-324 | with non-negative heights, the items before the cut go to the first box and the rest to the second, both runs of consecutive items |
| Flex.SplitKeepsItems | flexbox/flex.py:299-332 | whenever split divides a wrapped box, by lines in a row box or by items in a column box, the two boxes together hold every item once, in order, the first a leading run |
| Flex.SplitRowsExample | tests/tests_flexbox.py:911-925 | lines [0, 1], [2] and [3] of height 10 split at 15 into [0, 1] and [2, 3] |
| Flex.SplitColumnsExample | tests/tests_flexbox.py:927-942 | a column of four items of height 10 splits at 15 into [0] and [1, 2, 3] |
| FlexObjects.FlexItem.constructor | flexbox/flex.py:27-53 | a new item holds its configuration and frame, with no bases, no size, no content size and no lines |
| FlexObjects.FlexItem.Wrap | flexbox/flex.py:57-103 | wrap returns what Flex.WrapNode gives, or its error, and leaves the item in the state it describes |
| FlexObjects.FlexItem.Settle | flexbox/flex.py:77-103 | the sizing after the content returns what Flex.Finish gives and stores the size, the content size and the frame's bases |
| FlexObjects.FlexItem.WrapContent | flexbox/flex.py:233-271 | wrap_content returns the content size of Flex.ContentOf, or its error, and keeps its lines and children |
| FlexObjects.FlexItem.DrawContent | flexbox/flex.py:273-297 | draw_content gives the positions of Flex.Draw for the box's lines and children |
| FlexObjects.FlexItem.ChildHeights | flexbox/flex.py:322-323 | one height per child, the child's height |
| FlexObjects.FlexItem.Split | flexbox/flex.py:299-332 | split returns [] or raises as Flex.Split does, or two new boxes with the box's configuration and the items Flex.Split assigns them |
| FlexObjects.SplitRows | flexbox/flex.py:307-316 | the loop over the lines gives the two item lists of Flex.SplitLines |
| FlexObjects.SplitColumn | flexbox/flex.py:318-324 | the loop over the items gives the two item lists of Flex.SplitItems |
| FlexObjects.Pick | flexbox/flex.py:329-332 | the new box's items are the chosen items in order |
| FlexObjects.BoxContent | flexbox/flex.py:237-271 | the content of a box with children is Flex.ContentOf |
| FlexObjects.WrapChildren | flexbox/flex.py:237-238 | the loop wraps each child in turn and stops at the first error |
| FlexObjects.ArrangeChildren | flexbox/flex.py:240-269 | the loop builds the lines of Flex.BreakRows, sized by Flex.MakeLines |
| FlexObjects.SizeLines | flexbox/flex.py:260-269 | the loop sizes each line as Flex.LineOf does |
| FlexObjects.PlaceRow | flexbox/flex.py:279-297 | the inner loop of draw_content gives Flex.PlaceLine |
| FlexObjects.DrawLines | flexbox/flex.py:278-297 | the loops of draw_content give Flex.Draw |
| FlexObjects.AxisStep | flexbox/flex.py:77-93 | one axis of the sizing after the content: the automatic size when needed, then the clamps |
| FlexObjects.ChildWraps | flexbox/flex.py:237-238 | each child wrapped against the same available space |
| FlexObjects.ContentConsistent | flexbox/flex.py:246-258 | a successful wrap_content leaves lines that cover the children |
| FlexObjects.ContentSteps | flexbox/flex.py:237-271 | proof step: wrap_content of a box with children wraps the children, then arranges them |
| FlexObjects.NoContent | flexbox/flex.py:234-235 | proof step: an item or an empty box has content (0, 0) and no lines |
| Flex2.Absolute | flexbox2/flex.py:82-85 | the stored size is true, has base 0 and floats to the size |
| Flex2.ConfigureSpec | flexbox2/flex.py:24-38 | __init__ succeeds exactly when every argument parses, and then holds the parse of each of the nine arguments in its attribute; otherwise it raises what the first failing assignment raises, in the order min_width, width, max_width, min_height, height, max_height, margin, border, padding; with no arguments the six measurements are unspecified and the three frames the default one |
| Flex2.SizingOfFails | flexbox2/flex.py:28-38 | when the assignments fail, the one that raises is the first failing one in assignment order |
| Flex2.ContentSizeSpec | flexbox2/flex.py:89-90 | FlexItem content is (0, 0), TestItem content (100, 100), and measured content resolves against the area offered |
| Flex2.FlexItem.constructor | flexbox2/flex.py:24-44 | a new item has the given attributes and content, and no content size |
| Flex2.FlexItem.Wrap | flexbox2/flex.py:46-87 | wrap returns the size of Flex2.WrapOf, or its error, and leaves the attributes and the content size it describes |
| Flex2.FlexItem.Settle | flexbox2/flex.py:59-87 | the frames take the resolved width (0 when automatic) as base, then the rest of wrap |
| Flex2.FlexItem.Finish | flexbox2/flex.py:66-87 | the content calls, the automatic axes and the stored results agree with Flex2.FinishOf |
| Flex2.FlexItem.Store | flexbox2/flex.py:79-85 | the content size is cached and width and height become absolute lengths with base 0 |
| Flex2.NewItem | flexbox2/flex.py:24-44 | an item is created exactly when every argument parses, with the parsed attributes |
| Flex2.FrameSums | flexbox2/flex.py:63-64 | frame_width sums the widths of padding, margin and border; frame_height sums the heights of padding and margin and the width of the border |
| Flex2.SettleIs | flexbox2/flex.py:63-87 | proof step: with the frame sums known, the rest of wrap is the content stage |
| Flex2.FinishFails | flexbox2/flex.py:71-77 | proof step: an automatic axis whose content plus frame is None raises TypeError |
| Flex2.FinishSucceeds | flexbox2/flex.py:66-87 | proof step: when both axes end up with a size, wrap returns them with the content size of the last content call |
| Flex2.MaxPair | flexbox2/measurement.py:56-62 | max of two resolvable arguments in closed form |
| Flex2.MinPair | flexbox2/measurement.py:64-70 | min of two resolvable arguments in closed form |
| Flex2.Widest | flexbox2/flex.py:52-52 | max(width, min_width) is None exactly when neither is given, and otherwise the larger of those given |
| Flex2.Capped | flexbox2/flex.py:53-54 | a non-zero size is capped by a given maximum |
| Flex2.ClampSpec | flexbox2/flex.py:52-57 | once bound, the clamp never raises; it is None exactly when neither size nor minimum is given, otherwise the larger of them capped by a given maximum unless 0 |
| Flex2.AutoSizeSpec | flexbox2/flex.py:72-75 | an automatic axis takes content plus frame, None exactly when that is 0; a known size is kept |
| Flex2.FramesResolve | flexbox2/flex.py:59-64 | with every frame bound to b, the frame sums never raise and count the border's left and right in the height |
| Flex2.WrapStages | flexbox2/flex.py:46-87 | proof step: wrap binds the bases, resolves both axes, sums the frames, then runs the content stage |
| Flex2.WrapErrors | flexbox2/flex.py:46-87 | wrap can only raise TypeError, and an item that gives a size or minimum on both axes always wraps |
| Flex2.WrapSpecified | flexbox2/flex.py:52-61 | an item specified on both axes wraps to the clamped sizes whatever its content, and padding, margin and border all take that width as base |
| Flex2.WrapOffersInnerArea | flexbox2/flex.py:63-69 | an item with two non-zero sizes offers its content the area inside its frames and caches the answer |
| Flex2.FinishSpecified | flexbox2/flex.py:66-69 | for two non-zero sizes the content is offered the size less the frame sums |
| Flex2.WrapAutomatic | flexbox2/flex.py:71-77 | an automatic item with absolute content wraps to content plus frame on each axis, the frames counting only static parts; it raises exactly when either sum is 0 |
| Flex2.AutomaticFrames | flexbox2/flex.py:59-64 | frames bound to 0 sum to their static parts |
| Flex2.AutomaticFinish | flexbox2/flex.py:71-77 | with both axes automatic, wrap succeeds exactly when both sums are non-zero, and then returns content plus frame |
| Flex2.AutomaticSizes | flexbox2/flex.py:71-77 | non-zero sums give content plus frame, with the content asked again |
| Flex2.AutomaticZero | flexbox2/flex.py:72-75 | a zero sum on an automatic axis raises |
| Flex2.FixedContent | flexbox2/tests/tests.py:17-21 | absolute content answers its own lengths whatever it is offered |
| Flex2.WrapIdempotent | flexbox2/flex.py:79-87 | with no minima or maxima, wrapping again returns the same size whatever the available space |
| Flex2.ExpectedAbsolute | flexbox2/flex.py:82-85 | a stored absolute size is its own expected size |
| Flex2.WrapSettles | flexbox2/flex.py:79-87 | after wrap, width and height are the returned lengths, absolute; the minima and maxima keep their bases; every frame has the resolved width (or 0) as base |
| Flex2.SampleItem | flexbox2/flex.py:192-194 | TestItem with no attributes wraps to (100, 100) whatever it is offered |
| Flex2.FramedSizing | flexbox2/tests/tests.py:33-65 | plain frames leave both axes automatic, and each frame counts twice on each axis |
| Flex2.TestAutoNoFrame | flexbox2/tests/tests.py:25-31 | content 100 × 100 wraps to (100, 100) at (0, 0) and again at (1000, 1000) |
| Flex2.TestAutoFramed | flexbox2/tests/tests.py:33-65 | content 100 × 100 inside plain frames wraps to 100 plus twice the frames on each axis |
| Flex2.TestAutoMargin | flexbox2/tests/tests.py:33-39 | a margin of 10 wraps to (120, 120) |
| Flex2.TestAutoPadding | flexbox2/tests/tests.py:41-47 | a padding of 10 wraps to (120, 120) |
| Flex2.TestAutoBorder | flexbox2/tests/tests.py:49-55 | a border of 10 wraps to (120, 120) |
| Flex2.TestAutoAll | flexbox2/tests/tests.py:57-65 | border 10, padding 20 and margin 20 wrap to (200, 200) |
| Flex2.FullWidthSizing | flexbox2/tests/tests.py:67-75 | width and height "100%" parse to the whole of their base, and nothing else is given |
| Flex2.TestFullWidth | flexbox2/tests/tests.py:67-75 | width and height "100%" with padding 25 wrap to (50, 25) at (50, 25) |
| Flex2.FrameHeightCountsBorderWidth | flexbox2/flex.py:64-64 | a border of 0 at top and bottom and 10 at left and right makes an otherwise empty item 20 high |

## Left out

- Canvas drawing (`draw_background`, `draw_border`, `draw` and the canvas calls): only the position each `drawOn` receives is modelled, as a `Placement`.
- `flexbox/flex_flowable.py`, `flexbox/color.py` and `flexbox2/color.py`: reportlab paragraphs, PIL images and colour parsing are not part of this model.
- `flexbox2/options.py` holds two field-selector lambdas and no behaviour; it is not part of this model.
- `flexbox2/tests/tests_flexbox.py` exercises a `FlexBox` that the second engine does not define; it is not part of this model.
- The demo and development scripts, `setup.py` and the documentation examples only build PDFs.
- `DebugBox.wrap` in the first engine's tests is a third sizing variant that lives in test code.
- Enum validation by the `fortnum` library: the policies, directions and wrap modes are closed datatypes, so an invalid value cannot be built.
- The weak-reference descriptors are plain fields or values. `Measurement2.ReadFrame` models the lazy default of the frame descriptor.
- Measurements are values, not shared objects. Setting a base is the owner replacing its measurement by `WithBase(b)`. The model matches the code when each side and each size argument is its own object, as `parse` makes them of strings, numbers and None. It differs wherever one measurement object is reachable in two places:
  - In the first engine, each side of `frame` is a compound that holds the margin, border and padding objects themselves. Binding `frame`'s spans therefore also sets the bases of those objects; the model does not record that on margin, border and padding.
  - `parse` returns a `FlexMeasurement` or compound it is given unchanged (flexbox/measurement.py:121-122). A frame given one puts that one object on all four sides (flexbox/measurement.py:165-166, 179-183), and one passed as both a width and a height argument is a single object too.
  - wrap sets such an object's base to the width and then to the height (flexbox/flex.py:58-61, 69-70) before it floats the width span (flexbox/flex.py:73). The width span is then resolved against the height, which changes the result.
  - Example: `m = FlexMeasurement.parse("10%")`, `FlexBox(FlexItem(width="100%"), height=100, margin=m).wrap(200, 100)`. The code offers the child 180 and returns width 225 (180 / 0.8). The model offers 160 and returns width 200.
- FlexObjects.FlexItem.Wrap: when wrap raises part-way, the model states the error but not which fields were already updated before it.
- Flex2.FlexItem.Wrap: when wrap raises part-way, the model states the error but not which bases were already set before it.
- Python floats are `real`: rounding, infinities and NaN are not modelled.
- `float()` on a string is modelled for plain decimal notation (a sign, digits, at most one point). Exponents, surrounding whitespace, underscores, "inf" and "nan" are read as errors.
- int and float arguments are both `Number`, and the model does not distinguish `10` from `10.0`.
- `__str__` and `__repr__` are left out.
- Child content in the first engine: a plain `FlexItem` has content (0, 0), and boxes nest. `FlexImage` and `FlexParagraph` content is left out with the flowables.
- Measurement.TruthyFloats: states only that no more floats are taken than there are arguments; `TruthyFloatsSpec` carries the full contract.
- Measurement.Add: states only that a sum is a compound; `AddIsCompound` and `AddSpec` state its components and its length.
- Options.Points: states only the number of offsets; `PointsPacked`, `SpacingAddsUp` and `PointsMargins` state where they are.
- Flex.Draw: states only when drawing raises; `DrawPlacesEveryItem` and `DrawnItems` state what is placed.
- Flex.Split: states only the keep-together and not-yet-wrapped cases; `SplitKeepsItems` states for both directions that the halves keep every item in order, and `SplitLinesPartition`, `SplitItemsPartition` and `CutSpec` state where each direction cuts.
- Measurement.Sub: states only when a difference exists; `SubResolves` states that it floats to float(a) - float(b).
- Measurement.SubAsWritten: states only when a difference exists; `SubAgreesElsewhere` and `SubAsWrittenReversesSign` state its value.

## Findings

| source | as written | input that shows it | evidently intended | confidence | as-written member | corrected member |
|---|---|---|---|---|---|---|
| flexbox/measurement.py:82-83 | `FlexMeasurement - CompoundFlexMeasurement` puts the compound's negatives first and `self` among the negatives, giving -other - self | FlexMeasurement(10, 0) - CompoundFlexMeasurement([FlexMeasurement(3, 0)]) with every base bound: floats to -13 | self plus the compound's negatives, less its positives: 10 - 3 = 7 | not executed | Measurement.SubAsWrittenCounterexample | Measurement.SubResolves |
| flexbox/flex.py:276-277 | `AlignContent.Stretch.stretch(...)` is called, but `Stretch` (flexbox/options.py:124-125) defines no `stretch`, so draw_content raises AttributeError with align_content Stretch, the default | any wrapped FlexBox drawn with the default align_content | the free cross space shared equally among the lines, none shrinking | not executed | Flex.DrawAsWrittenFailsOnStretch | Options.StretchSpec |
| flexbox/options.py:42-121 | every `point` and `points` takes a `key` with no default, but draw_content (flexbox/flex.py:279-296) passes two arguments, so drawing with any align_content other than Stretch raises TypeError, and draw_content never returns positions | any wrapped FlexBox drawn with align_content FlexStart | `key` read as the identity on the lengths passed, as `tests/tests_options.py` calls the policies too, and every item placed once, in order | not executed | Flex.DrawAsWrittenMissingKey | Flex.DrawPlacesEveryItem |
