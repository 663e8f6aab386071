# What the repository's harder code keeps

A Dafny model, with proofs, of the parts of the repository that carry the most state, branching
or arithmetic. `dafny verify dfyconfig.toml` checks all of it.

* **The HVIF codec** (`tools/artwork/hviftool.py`). `HvifNumbers`, `Binary32` and `Float24` are the
  two lossy number codes; `HvifFormat` is the format as functions from values to bytes and back, and
  `HvifLayout` says in numbers which bytes those are;
  `HvifNorm` says, without reference to its bytes, what an icon becomes; `HvifRoundTrip`, `HvifPaths`,
  `HvifShapes` and `HvifTheorems` prove that it does, `HvifAccepts` for which icons; `HvifDecoded`
  starts from bytes instead; `HvifCodec` and `HvifEncoder` are the reader and the writer with their
  position and buffer; `HvifCleanUp` is the pass over a path's points.
* **SVG path data** (section 9.3 of SVG 2; same file). `SvgPath` is the grammar and the printer,
  `SvgRoundTrip` their round trip, `SvgLetters` what each letter means, `SvgParser` the builder that
  is updated as it reads.
* **Winding** (same file). `Winding` flattens, measures and reverses; `FixWinding` turns even-odd
  fills into non-zero ones, and `FillRules` says when the two fill the same.
* **The ABC timeline** (`tools/hvgpu/abc.swift`; sections 4.4, 4.11 and 4.13 of the ABC standard
  2.1). `AbcTimeline` is one step per token; `AbcLengths`, `AbcPitches` and `AbcEffects` say what the
  tokens mean, by what runs of them do; `AbcSafety` is what every step keeps, `AbcChords`
  what is kept with chords and when, `AbcDurations` the arithmetic of broken rhythm and tuplets,
  `AbcParser` the parser, `AbcSchedule` ticks to samples.
* **Packages** (`packages/builder/prosepkg.py`). `InstallClosure` is the worklist over
  requirements; `Providers` and `Builder` (module `Building`) the recursive build; `PackageTree`,
  `LocalPackages` and `LocalListing` the edit of a package and the listing that must agree with it.
* **The synthesiser and its player** (`tools/hvgpu/chip.swift`, `tools/chiptest/player.swift`).
  `ChipModel`, `ChipRegisters` (what the registers mean), `ChipTheorems`, `Chip` and `ChipEnvelopes`;
  `Runs` and `Spans` are about anything rendered in steps;
  `Player` puts them together with the schedule.
* **The RAM console** (`tools/hvgpu/main.swift`): `RamConsole`. **Blitting**
  (`tools/bench/blitbench.c`): `Blit`.

Where the source changes an object in place there is a class whose methods are proved against
functions of the state, and the theorems are about those functions.

Some things the code does that its comments do not say, each stated by a member below:

* Registers 14 and 15 never let a release end: it comes to rest at level 6, or 14, or where it
  begins when that is lower (`ChipTheorems.ReleaseRests`).
* A broken mark after a chord changes only the chord's last note, and notes can then overlap
  (`AbcSafety.ChordThenBroken`): exactly when a `<` sets the clock back to before another note of
  the chord has ended (`AbcChords.RunIsSane`).
* Subpaths that cross, and ones inside an open subpath, may be filled differently after their fill
  rule is changed (`FillRules.RulesMayDiffer`, `FillRules.OpenMayDiffer`), and when is known exactly
  (`FillRules.RulesAgreeAnywhere`).
* A short note that is struck again at once is cut by its own predecessor's release when it lasts
  less than a sample (`AbcSchedule.ReStrike`, `AbcSchedule.FastIsCut`).
* 24 bits do not only truncate: a number may grow (`Float24.SomeGrow`), one below 2^32 may become 0
  (`HvifAccepts.SomeLargeVanish`), and so does a positive one just above 2^-32, whose code is the
  one that means 0 (`Float24.Float24OfAnyNumber`); a shape moved by less than half a hundredth loses its matrix on the
  second trip (`HvifTheorems.SmallMoveCollapses`); a stroke's join of 16 or more runs into its cap
  (`HvifShapes.StrokeOptionsSplit`).
* A package whose Applications folder has an icon, with an entry for a folder that gets one, is
  listed for update for ever (`LocalListing.TwoIcons`, `LocalListing.ListedForEver`).
* A build-time tool that nothing provides stops a build, and so does one whose port lacks its
  package, although one that cannot be built does not: only the build is inside the `try`
  (`Building.ToolStops`, `Building.ToolNobodyProvides`, `Building.ToolLacksPackage`).
* A fill whose last part of eight bytes is 5, 6 or 7 leaves a whole pixel unset
  (`Blit.FillsWholePixels`).

Coordinates, matrices and times are exact: `int` is unbounded, `real` is not rounded, except where
rounding is the point (coordinate quantisation, binary32 and its 24 bits, four decimals, ticks to
samples). Python's `round` is half to even, Swift's and C's divisions are written out.

## Model

| member | source | states |
|---|---|---|
| `HvifTheorems.RoundTrip` | tools/artwork/hviftool.py:244-517 | decode of whatever encode accepts, with any bytes after it, is the normalised icon; when a shape names a style that is not there, the error that names the first such style |
| `HvifAccepts.EncodeAccepts` | tools/artwork/hviftool.py:371-530 | encode accepts an icon exactly when its tables hold at most 255, every number written in a byte is one, a stroke has a join below 256 and a cap below 16, and every number written as a float is below what rounds to 2^128 |
| `HvifAccepts.AcceptableRoundTrip` | tools/artwork/hviftool.py:244-517 | so every such icon whose styles are there decodes to the normalised icon |
| `HvifAccepts.PacksBelow` | tools/artwork/hviftool.py:229-230 | a number has a binary32 exactly when its magnitude is below 2^128 - 2^103 |
| `HvifEncoder.EncodeThenDecode` | tools/artwork/hviftool.py:371-517 | the same of the two programs as they run: writer then reader, for every icon |
| `HvifEncoder.EncodeIcon` | tools/artwork/hviftool.py:371-517 | the loops that append to the buffer write exactly the format the round trip is about, and fail exactly when it has no bytes |
| `HvifCodec.DecodeIcon` | tools/artwork/hviftool.py:244-346 | the reader that moves over the bytes gives the same icon or the same error as the format, for every byte string |
| `HvifEncoder.CountPoints` | tools/artwork/hviftool.py:415-425 | the first pass counts the straight, line and curve points that the packed commands then have |
| `HvifEncoder.Writer.WritePath` | tools/artwork/hviftool.py:410-465 | writes the chosen one of the three forms of a path |
| `HvifCodec.Reader.ReadPath` | tools/artwork/hviftool.py:280-307 | reads any of the three forms, or fails where the bytes end |
| `HvifPaths.PathRoundTrip` | tools/artwork/hviftool.py:280-307 | a path decodes to its cleaned up quantised points whichever form was chosen, although the encoder compares unquantised positions and the decoder decoded ones |
| `HvifPaths.ChosenFormIsNeverLonger` | tools/artwork/hviftool.py:426-465 | the form chosen from the estimate of two bytes a number is never longer than the plain form |
| `HvifPaths.CommandPointsRoundTrip` | tools/artwork/hviftool.py:435-460 | points written as commands and the coordinates they need are read back quantised, from any place in the packed commands |
| `HvifPaths.UnpackPacked` | tools/artwork/hviftool.py:456-460 | two bits at a time, four commands a byte, come back out in order |
| `HvifShapes.ShapeRoundTrip` | tools/artwork/hviftool.py:308-345 | a shape reads back normalised: path indices in range, its matrix in the form its flags say, LOD, hinting and transformers |
| `HvifShapes.TransformerRoundTrip` | tools/artwork/hviftool.py:324-340 | each transformer that can be written reads back, a stroke with its join and cap packed in one byte |
| `HvifShapes.StrokeOptionsSplit` | tools/artwork/hviftool.py:511-513 | what the low and the high four bits of join and cap together give back, joins of 16 and more included |
| `HvifRoundTrip.StyleRoundTrip` | tools/artwork/hviftool.py:378-409 | a solid or gradient style reads back with its flags: alpha, grays, matrix, stops sorted |
| `HvifRoundTrip.ColorRoundTrip` | tools/artwork/hviftool.py:520-530 | a colour written with the flags of its table comes back, alpha only when it is written |
| `HvifTheorems.SortStopsSorts` | tools/artwork/hviftool.py:271-272 | the stops decode keeps are sorted by offset, are the same ones, and those of one offset stay in the order they were |
| `HvifTheorems.NormPathIdempotent` | tools/artwork/hviftool.py:280-307 | a decoded path survives another trip unchanged |
| `HvifTheorems.NormTransformerIdempotent` | tools/artwork/hviftool.py:324-340 | so does a transformer; a stroke survives the first trip exactly when its join fits four bits |
| `HvifTheorems.StyleSettles` | tools/artwork/hviftool.py:262-275 | what a second trip leaves of a style: all of it, except a matrix that 24 bits have brought within 1e-7 of the identity |
| `HvifTheorems.MatrixSettles` | tools/artwork/hviftool.py:476-491 | what a second trip leaves of a shape matrix in each case, and that the third changes nothing more |
| `HvifTheorems.SmallMoveCollapses` | tools/artwork/hviftool.py:476-491 | a move of 0.004 units is written, read as a move of nothing, and gone on the second trip |
| `HvifDecoded.DecodeEncodeDecode` | tools/artwork/hviftool.py:244-530 | the other way round, for every byte string that decodes: encode takes the icon back if and only if it has no affine transformer, and decode then gives its normal form, which is the icon itself if and only if no coordinate is above 192, no level of detail is 0 to 255, no matrix is near the identity without being it, and no full matrix is one that is written as a move |
| `HvifDecoded.DecodedIsIcon` | tools/artwork/hviftool.py:244-346 | whatever the bytes, what is decoded has numbers that are those of the format, clean paths, sorted stops, and shapes whose style and paths are there |
| `HvifDecoded.GridStays` | tools/artwork/hviftool.py:180-187 | a coordinate that was read is written and read as itself if and only if it is not above 192; two bytes can hold up to 193.245 |
| `HvifNumbers.CoordDecodes` | tools/artwork/hviftool.py:180-187 | the decoder tells the two forms of a coordinate apart and gives the quantised value |
| `HvifNumbers.CoordCodeIsCanonical` | tools/artwork/hviftool.py:217-228 | encoding what a written coordinate is read back as gives the bytes it was written in: precision is lost once only |
| `HvifNumbers.WideIsNotWhole` | tools/artwork/hviftool.py:217-228 | a value written in two bytes never decodes to one that a single byte would have carried |
| `HvifNumbers.CoordError` | tools/artwork/hviftool.py:217-228 | the loss is at most 0.005 of a unit of the clamped value |
| `Float24.Float24CodeIsCanonical` | tools/artwork/hviftool.py:188-195 | every 24-bit code is what its own number is written as |
| `Float24.QuantizeFloatIdempotent` | tools/artwork/hviftool.py:229-241 | 24 bits are lost once only |
| `Float24.Float24OfAnyNumber` | tools/artwork/hviftool.py:229-241 | what any number comes back as: not at all from 2^128 - 2^103 on; 0 exactly below 2^-32 and from 2^32 - 2^7 on, to the last half unit of binary32 on each side; any other keeps its sign, grows by at most one part in 2^24 and loses less than one part in 2^17 |
| `Float24.GrowsExactly` | tools/artwork/hviftool.py:229-241 | it grows exactly when binary32 rounds it up to a number whose six low bits are clear |
| `Float24.SomeGrow` | tools/artwork/hviftool.py:229-241 | 1.99999999 does: it comes back as 2 |
| `Float24.Float24Truncates` | tools/artwork/hviftool.py:229-241 | what a binary32, subnormals and zero among them, becomes: 0 exactly outside 2^-32..2^32 (and for the positive ones just above 2^-32), else truncated towards zero by less than one part in 2^17 |
| `HvifAccepts.NormNumberOf` | tools/artwork/hviftool.py:476-491 | so for the entries of the matrices of an icon that encode accepts |
| `HvifAccepts.SomeLargeVanish` | tools/artwork/hviftool.py:229-241 | 4294967295 is below 2^32 and comes back as 0 |
| `Binary32.PackIsNearest` | tools/artwork/hviftool.py:229-241 | rounding to binary32 is to the nearest, to the even one of two, for every number that has one, however small |
| `Binary32.PackIsExact` | tools/artwork/hviftool.py:229-241 | and leaves every finite binary32 as it is |
| `HvifCleanUp.CleanUpLoop` | tools/artwork/hviftool.py:349-364 | the delete-and-step-back loop ends, with nothing removable left and the same segments drawn, the closing one included |
| `HvifCleanUp.CleanUpDrawsTheSame` | tools/artwork/hviftool.py:349-364 | the non-degenerate segments are the same, in the same order |
| `HvifCleanUp.SegmentSays` | tools/artwork/hviftool.py:349-364 | what a segment says of the points it joins: all but the handles on their far sides |
| `HvifCleanUp.CleanUpIsClean` | tools/artwork/hviftool.py:349-364 | no removable adjacent pair is left |
| `HvifCleanUp.CleanUpIdempotent` | tools/artwork/hviftool.py:349-364 | cleaning up twice is cleaning up once |
| `HvifCleanUp.CleanUpEnds` | tools/artwork/hviftool.py:349-364 | the ends keep what their neighbours see of them |
| `HvifLayout.ReadsCommands` | tools/artwork/hviftool.py:287-303 | in numbers, not constants: command 0 reads an x and keeps the y of the point before, 1 reads a y and keeps the x, 2 reads both, 3 a point with its handles |
| `HvifLayout.ReadsHorizontalLine` | tools/artwork/hviftool.py:280-307 | the bytes 4 2 2 42 52 62 are a path from (10, 20) to (30, 20) |
| `HvifLayout.ReadsPath` | tools/artwork/hviftool.py:280-307 | a path is its flags, its count and its points in the form that bits 3 and 2 say; bit 1 closes it |
| `HvifLayout.UnpacksFour` | tools/artwork/hviftool.py:288-291 | four commands a byte, the first in the lowest two bits, written and read |
| `HvifLayout.FlagIsBit` | tools/artwork/hviftool.py:264-345 | a flag is one bit of its byte: of each of the five |
| `HvifLayout.ReadsStop` | tools/artwork/hviftool.py:269-271 | a stop has its offset before its colour |
| `HvifLayout.ReadsSolids` | tools/artwork/hviftool.py:251-260 | style kind 1 has four bytes of colour, 3 has no alpha, 4 is gray with alpha, 5 gray without |
| `HvifLayout.ReadsGradient` | tools/artwork/hviftool.py:261-274 | kind 2: its type, flags and count, six floats for bit 1, stops without alpha for bit 2 and gray for bit 4, sorted |
| `HvifLayout.ReadsTransformers` | tools/artwork/hviftool.py:326-340 | kinds 20 to 23: affine, contour, perspective, stroke, each with its numbers in order |
| `HvifLayout.ReadsShapeParts` | tools/artwork/hviftool.py:316-340 | bit 1 six floats, else bit 5 a move; bit 3 the two ends of a level of detail, bit 4 a count of transformers |
| `HvifLayout.ReadsShape` | tools/artwork/hviftool.py:308-345 | kind 10: a style, paths by number, flags of which bit 2 is hinting, then those parts in that order |
| `HvifLayout.SkipsOthers` | tools/artwork/hviftool.py:275-277 | any other kind, of styles, shapes or transformers, is passed over by the two bytes of length after it |
| `HvifLayout.ReadsIcon` | tools/artwork/hviftool.py:244-345 | only "ncif" begins an icon; then styles, paths and shapes, each after their number |
| `HvifLayout.ReadsSmallFile` | tools/artwork/hviftool.py:244-345 | what one whole file of 20 bytes decodes to |
| `HvifLayout.Float24Is` | tools/artwork/hviftool.py:186-195 | a 24-bit float is a sign, six bits of exponent from 2^-32 on and seventeen of fraction; all zeros are 0 |
| `HvifLayout.WritesSolids` | tools/artwork/hviftool.py:402-409 | kind 5 for opaque grays, 4 for other grays, 3 for other opaque colours, 1 for the rest, with the bytes they need |
| `HvifLayout.WritesGradient` | tools/artwork/hviftool.py:379-401 | bit 1 and six floats unless the matrix is near the identity, bit 2 when all stops are opaque, bit 4 when all are gray |
| `HvifLayout.WhichFlags` | tools/artwork/hviftool.py:379-401 | when a matrix is near the identity to within 1e-7 in each number, and when stops are opaque or gray |
| `HvifLayout.WritesStop` | tools/artwork/hviftool.py:399-401 | a stop has its offset before its colour |
| `HvifLayout.WritesCommands` | tools/artwork/hviftool.py:439-455 | a point straight below or above the one before is command 1 and its y, one at its side 0 and its x, any other straight one 2 and both, a curve 3 and six numbers |
| `HvifLayout.WritesPath` | tools/artwork/hviftool.py:410-465 | flags 2, 4 and 8 for closed, commands and no curves, the count, then the packed commands before their coordinates, or the points |
| `HvifLayout.WritesShape` | tools/artwork/hviftool.py:467-498 | kind 10, style, paths, the flag bits, and the parts those bits say in the order they are read |
| `HvifLayout.MatrixForms` | tools/artwork/hviftool.py:476-494 | no matrix near the identity is written, one that only moves is written as two coordinates, any other as six floats |
| `HvifLayout.WritesTransformers` | tools/artwork/hviftool.py:500-516 | contours and strokes with their offsets of 128, join and cap in one byte |
| `HvifLayout.WritesPerspective` | tools/artwork/hviftool.py:506-509 | a perspective is nine floats |
| `HvifLayout.WritesFloats` | tools/artwork/hviftool.py:228-241 | the three bytes of a float weigh 65536, 256 and 1 |
| `HvifLayout.WritesCoordinates` | tools/artwork/hviftool.py:217-226 | a byte for the whole numbers from -32 to 95, else two with the top bit set, the upper first |
| `HvifLayout.WritesSmallFile` | tools/artwork/hviftool.py:371-517 | the icon of that file is written as those 20 bytes |
| `SvgRoundTrip.PrintThenParse` | tools/artwork/hviftool.py:837-902 | parsing the printed data of any list of paths gives those paths as four decimals keep them |
| `SvgRoundTrip.PrintThenParseIsExact` | tools/artwork/hviftool.py:837-902 | printing and parsing is the identity on exactly the lists whose every path returns: two points or more, four decimals at most, and ends that are not lost |
| `SvgRoundTrip.ReprintedIsExact` | tools/artwork/hviftool.py:1229-1246 | a path comes back exactly if and only if it returns: the ends of an open one are lost when the handles there are used, the start of a closed one when a straight closing segment returns to it |
| `SvgRoundTrip.FmtIsIdempotent` | tools/artwork/hviftool.py:1218-1220 | formatting loses decimals once only |
| `SvgParser.ParsePathData` | tools/artwork/hviftool.py:731-902 | the builder that is updated command by command gives what the grammar gives |
| `SvgParser.PrintPath` | tools/artwork/hviftool.py:1229-1246 | the loop that prints a path prints the specified data |
| `SvgParser.RelativeMeansTheSame` | tools/artwork/hviftool.py:851-895 | a whole list of commands means the same in lower case as in upper, counted from the current position, curves and arcs included |
| `SvgLetters.SpelledMeansTheSame` | tools/artwork/hviftool.py:851-895 | every list of commands builds what it builds when each H and V is an L, each T a Q with the mirrored control point and each Q and S a C |
| `SvgLetters.LinesByOne` | tools/artwork/hviftool.py:869-872 | H x is a line to x at the height of the position, V y one to y straight above or below it |
| `SvgLetters.SmoothCurves` | tools/artwork/hviftool.py:878-890 | S is C, and T is Q, with the control point that the position is halfway to; the position itself when the last command left none |
| `SvgLetters.QuadraticCurves` | tools/artwork/hviftool.py:884-893 | Q is C with its degree raised |
| `SvgLetters.ElevatedDrawsTheSame` | tools/artwork/hviftool.py:891-892 | which draws the same curve at every t |
| `SvgLetters.Leaves` | tools/artwork/hviftool.py:862-900 | the control point each command leaves for the next: none but for C, S, Q and T |
| `SvgLetters.Repeats` | tools/artwork/hviftool.py:851-868 | numbers after a full command repeat it, or draw lines after a move |
| `SvgLetters.RefusesNumbers` | tools/artwork/hviftool.py:853-854 | numbers before any command are refused |
| `SvgLetters.RefusesShort` | tools/artwork/hviftool.py:858-861 | an end within a command is refused, and so is a letter where a number should be, as another error |
| `SvgLetters.ArcsAreCurves` | tools/artwork/hviftool.py:894-899 | A draws the curves of its arc one after another, as C would |
| `SvgLetters.FourCorners` | tools/artwork/hviftool.py:930-932 | M x y H x+w V y+h H x Z, the form every rectangle is given, is the closed path of its four corners, but for one of no height |
| `SvgLetters.Closes` | tools/artwork/hviftool.py:762-779 | a close merges the last point into the first when they are within a millionth on both axes, and goes back to where the path began |
| `SvgLetters.FourDecimals` | tools/artwork/hviftool.py:1218-1220 | what is printed is within half of the fourth decimal |
| `Winding.BezierIsMixed` | tools/artwork/hviftool.py:580-583 | the cubic is three rounds of interpolation between its four points, at every t |
| `Winding.EvenAlongLine` | tools/artwork/hviftool.py:580-583 | so with its control points at the thirds of a line it is spaced evenly along it |
| `Winding.MeetingIsOnEdge` | tools/artwork/hviftool.py:613-621 | where an edge meets a height is on the line through its ends |
| `FixWinding.BalloonStays` | tools/artwork/hviftool.py:960-974 | M 28 60 C 0 0 64 0 36 60 Z has positive area, and is kept as it is |
| `Winding.ReversedArea` | tools/artwork/hviftool.py:575-610 | reversing a closed path of lines and cubics negates the area of its flattening |
| `Winding.ReversedWinding` | tools/artwork/hviftool.py:575-601 | and its winding number around any spot |
| `Winding.InsideIsOdd` | tools/artwork/hviftool.py:613-621 | the even-odd test is the parity of the winding number |
| `Winding.ReversedInside` | tools/artwork/hviftool.py:613-621 | the even-odd test does not see direction |
| `FixWinding.DirectionFollowsDepth` | tools/artwork/hviftool.py:960-974 | every closed subpath of non-zero area in the result is positive exactly when an even number of the others contain it; each subpath is itself or its reverse |
| `FillRules.RulesAgreeAnywhere` | tools/artwork/hviftool.py:960-974 | what the function is for, of any subpaths, open or crossing: where an odd number of them is around a spot both rules fill it; where an even number is, the non-zero rule on the result agrees with the even-odd rule if and only if the winding numbers, each turned where its subpath is, add up to nothing |
| `FillRules.RulesAgreeOnce` | tools/artwork/hviftool.py:960-974 | around a spot where no subpath crosses itself, closed or open: they agree if and only if an odd number is around it or as many are up as not, up being a closed one at even depth or an open one that winds upwards |
| `FillRules.RulesAgreeExactly` | tools/artwork/hviftool.py:960-974 | where those around it are closed: if and only if an odd number is around it or as many are at even depth as at odd |
| `FillRules.EvenOddStays` | tools/artwork/hviftool.py:960-974 | of any subpaths the even-odd rule fills the same of the result |
| `FillRules.WindingOfFixed` | tools/artwork/hviftool.py:960-974 | how often the result winds around a spot where no subpath crosses itself: those up less those not |
| `FillRules.NonZeroFillsAsEvenOdd` | tools/artwork/hviftool.py:960-974 | so always where those around it are closed and nested, however deep |
| `FillRules.RulesMayDiffer` | tools/artwork/hviftool.py:960-974 | two closed squares that cross, whose overlap is filled although the even-odd rule leaves it |
| `FillRules.OpenMayDiffer` | tools/artwork/hviftool.py:966-971 | an open square around a closed one, nothing crossing, which is filled although the even-odd rule leaves it: an open subpath is neither turned nor counted |
| `FixWinding.FixWindingLoop` | tools/artwork/hviftool.py:960-974 | the loops compute that function |
| `FixWinding.FlattenLoop` | tools/artwork/hviftool.py:586-601 | flattening by its loops |
| `FixWinding.SignedAreaLoop` | tools/artwork/hviftool.py:604-610 | the shoelace sum by its loop |
| `FixWinding.InsideLoop` | tools/artwork/hviftool.py:613-621 | the crossing test by its loop |
| `AbcSafety.RunIsSafe` | tools/hvgpu/abc.swift:357-512 | at every point of a chord-free tune the notes of a voice are disjoint and in order, every duration is at least 1, and the clock is not before the last end, whatever ties, tuplets, broken marks, rests and switches of voice |
| `AbcSafety.StepIsSafe` | tools/hvgpu/abc.swift:357-512 | each token keeps that |
| `AbcSafety.TieExtendsLast` | tools/hvgpu/abc.swift:494-501 | a tie only ever lengthens the last note of its voice |
| `AbcSafety.SafeBroken` | tools/hvgpu/abc.swift:408-425 | a broken mark rewrites an earlier note and moves the clock of its voice, and keeps that |
| `AbcSafety.ChordThenBroken` | tools/hvgpu/abc.swift:470-474 | with chords it fails: a concrete tune whose notes overlap |
| `AbcChords.RunIsSane` | tools/hvgpu/abc.swift:357-512 | for every tune, chords and all: at every point the notes of a voice are apart or begin together, and the clock is past them all, if and only if no < mark sets a clock back to before another note of the chord has ended |
| `AbcChords.StepIsSane` | tools/hvgpu/abc.swift:357-512 | one token, in both directions: every other token keeps that, a > mark, a tie or a tuplet after a chord included |
| `AbcChords.SaneBroken` | tools/hvgpu/abc.swift:408-425 | a mark keeps it, and keeps the clock past every note, if and only if the notes that begin with the last one end by the clock it sets |
| `AbcChords.OthersEndBefore` | tools/hvgpu/abc.swift:408-425 | no other note of the voice can end after that clock |
| `AbcChords.RightNeverOverhangs` | tools/hvgpu/abc.swift:408-425 | a > mark never sets a clock back |
| `AbcChords.OverhangOverlaps` | tools/hvgpu/abc.swift:408-425 | and when a < mark does, the next note of the voice begins before another has ended |
| `AbcParser.Parse` | tools/hvgpu/abc.swift:252-515 | the parser with its mutable voices, context and note list runs the specified steps, so its notes are safe without chords, and sane with them as long as no < mark sets a clock back too far |
| `AbcParser.Parser.DoNote` | tools/hvgpu/abc.swift:490-509 | a note, tied or not |
| `AbcParser.Parser.DoChord` | tools/hvgpu/abc.swift:447-477 | a chord |
| `AbcParser.Parser.DoBroken` | tools/hvgpu/abc.swift:408-425 | a broken mark |
| `AbcParser.Parser.Adjust` | tools/hvgpu/abc.swift:522-537 | the tuplet and the pending mark applied to a duration |
| `AbcParser.Parser.LastTied` | tools/hvgpu/abc.swift:494-496 | the search from the end for the note a tie can reach |
| `AbcDurations.BrokenPairConserves` | tools/hvgpu/abc.swift:408-425 | n marks between two notes of u ticks leave 2u or 2u - 1 in all, 2u exactly when 2^n divides u or u is below 2^n, for > and for <, and the clock agrees |
| `AbcDurations.BrokenTotal` | tools/hvgpu/abc.swift:522-537 | the two roundings together lose at most a tick |
| `AbcDurations.WholeTuplet` | tools/hvgpu/abc.swift:522-537 | a tuplet (p:q:r over r notes, rests and chords, with ties, bar lines and fields among them, advances the clock by q/p of what is written to within r ticks; exactly so if p divides every q * u, and, when every q * u is at least p, only if it does |
| `AbcDurations.TupletTime` | tools/hvgpu/abc.swift:522-537 | any first part of one takes its slots, and the clock goes on by the time given to what is written in them |
| `AbcDurations.TupletKeeps` | tools/hvgpu/abc.swift:522-537 | that time, for any lengths, against q/p of them |
| `AbcLengths.LongNote` | tools/hvgpu/abc.swift:596-612 | a note with a multiplier moves the clock as far as that many notes without one, a run of tokens |
| `AbcLengths.LongRest` | tools/hvgpu/abc.swift:479-488 | and so does a rest, of a unit or of a whole bar |
| `AbcLengths.DividedLength` | tools/hvgpu/abc.swift:596-612 | with slashes a length r is what is written divided by them: r * d is at most that, and (r + 1) * d more, or it is the one tick there must be |
| `AbcLengths.Slashes` | tools/hvgpu/abc.swift:596-612 | a bare slash is /2, each more halves again |
| `AbcLengths.LastsAsWritten` | tools/hvgpu/abc.swift:451-509 | a note, a rest and a chord, by its own length or its first member, all last that; the note begins at the clock |
| `AbcLengths.MeterField` | tools/hvgpu/abc.swift:290-303 | M: sets the bar, and before any L: the unit, 120 ticks under three quarters and else 240 |
| `AbcLengths.UnitField` | tools/hvgpu/abc.swift:281-289 | L: n/d makes a plain note that part of 1920 ticks |
| `AbcLengths.FirstNotes` | tools/hvgpu/abc.swift:596-612 | at the start A is 240 ticks, A2 480, A3/2 360, A// 60, Z 1920 |
| `AbcPitches.FifthsApart` | tools/hvgpu/abc.swift:93-105 | in every key of seven flats to seven sharps, a fifth up the letters is seven semitones above it in the key with one sharp more |
| `AbcPitches.Octaves` | tools/hvgpu/abc.swift:560-594 | middle C is 60, an octave twelve semitones |
| `AbcPitches.LettersAscend` | tools/hvgpu/abc.swift:93-105 | in C the letters ascend within an octave, from 0 |
| `AbcPitches.AccidentalsHold` | tools/hvgpu/abc.swift:560-594 | an accidental counts from the natural letter, holds for that letter in every octave, and for no other |
| `AbcPitches.AccidentalsEnd` | tools/hvgpu/abc.swift:364-375 | until a bar line, a key or a change of voice, after which the letter is that of the key again |
| `AbcPitches.ChordPitchesInTurn` | tools/hvgpu/abc.swift:451-477 | the notes of a chord sound as they would one after another, at one time and for one length |
| `AbcEffects.TiedNotes` | tools/hvgpu/abc.swift:490-509 | a tie makes one note of two that sound the same, as long as both, and leaves two that do not |
| `AbcEffects.BrokenNotes` | tools/hvgpu/abc.swift:407-425 | after > the first note has the longer part and after < the second: half more for one mark, three quarters for two |
| `AbcEffects.TupletTimes` | tools/hvgpu/abc.swift:380-401 | in the time of how many notes, for each number of notes and meter, unless it is written |
| `AbcEffects.TupletShortens` | tools/hvgpu/abc.swift:522-537 | a note in one lasts q of p parts of its length |
| `AbcEffects.VoiceBegins` | tools/hvgpu/abc.swift:258-275 | a new voice begins at 0 with the unit and key of the first, one that was there goes on, and no other is touched |
| `AbcEffects.BarWarns` | tools/hvgpu/abc.swift:364-375 | a bar line is warned of exactly when the clock is past the last whole bar, and moves nothing |
| `AbcEffects.SettingTime` | tools/hvgpu/abc.swift:434-445 | a chip setting is made at the clock of the voice it names |
| `AbcEffects.LineForgets` | tools/hvgpu/abc.swift:357 | a new line forgets ties, marks and tuplets, and nothing else |
| `AbcEffects.Velocities` | tools/hvgpu/abc.swift:502-505 | a note has the velocity of its voice, 100 from the start |
| `AbcSchedule.StepsOf` | tools/hvgpu/abc.swift:629-648 | a note is struck and let go at its pitch in its own voice, a register set in the voice it names |
| `AbcSchedule.BeatsOnTime` | tools/hvgpu/abc.swift:615-619 | at a tempo of bpm beats a minute beat k begins within half a sample of k minutes over bpm |
| `AbcSchedule.Schedule` | tools/hvgpu/abc.swift:625-666 | the steps of a tune in one order: by sample, then chip, off, on, then as written |
| `AbcSchedule.OneOrder` | tools/hvgpu/abc.swift:650-665 | there is only one such order, whatever sort finds it |
| `AbcSchedule.PlayedInOrder` | tools/hvgpu/abc.swift:650-674 | a step is played before another exactly when the order says so |
| `AbcSchedule.WithinHalfASample` | tools/hvgpu/abc.swift:615-619 | every sample is within half a sample of the exact time of its tick, however late |
| `AbcSchedule.LiftedALittleEarly` | tools/hvgpu/abc.swift:637-645 | a note is lifted early by at most a twentieth of it and a sixteenth of a beat, never before it begins, and at all exactly when both are whole ticks |
| `AbcSchedule.OffAfterItsOn` | tools/hvgpu/abc.swift:633-648 | every note-off is strictly after its note-on |
| `AbcSchedule.ReStrike` | tools/hvgpu/abc.swift:620-648 | of two notes that meet, the first is let go before the second is struck exactly when it lasts a sample |
| `AbcSchedule.LongEnough` | tools/hvgpu/abc.swift:615-619 | it does whenever it takes the time of one, and never when there is no tempo |
| `AbcSchedule.FastIsCut` | tools/hvgpu/abc.swift:620-648 | a tune of two short notes in which the second is struck before the first is let go |
| `AbcSchedule.ChipBeforeNote` | tools/hvgpu/abc.swift:668-674 | a register set no later than a note is set when the note starts |
| `AbcSchedule.VoicesAreMonophonic` | tools/hvgpu/abc.swift:620-666 | from tokens to steps: on, off, on, off for the notes of a voice in a chord-free tune |
| `InstallClosure.Close` | packages/builder/prosepkg.py:1859-1876 | the worklist ends with exactly the least set that holds the roots and the chosen provider of every requirement not in the image, without duplicates, each member asked for by one before it; it raises only for a needed package whose requirement nothing provides |
| `InstallClosure.FailsExactlyWhenLacking` | packages/builder/prosepkg.py:1859-1876 | and raises exactly when there is one |
| `InstallClosure.NeededIsReached` | packages/builder/prosepkg.py:1859-1876 | that set is what chains of requirements reach |
| `InstallClosure.Closure` | packages/builder/prosepkg.py:1812-1876 | the files of those packages, or the error: for a name that is neither a package nor a built port exactly when there is one |
| `InstallClosure.ProvidesOf` | packages/builder/prosepkg.py:1817-1819 | the table of providers keeps the first of each |
| `InstallClosure.InImage` | packages/builder/prosepkg.py:1824-1829 | what the image provides: its names, and what its packages provide |
| `InstallClosure.ReadRepo` | packages/builder/prosepkg.py:1803-1809 | of two package files of one name the later is kept |
| `Building.Builder.Build` | packages/builder/prosepkg.py:1179-1201 | for every graph of requirements: terminates, and leaves what is under way as it was, done and failed disjoint and only growing, every name entered at most once; which error is raised when, and why; succeeds without entering any name if and only if the port is done in this run or up to date and not asked for again, and then changes nothing; a port that is built is recorded, with its packages and no older ones in the repository; and nothing else is added to it or taken out but for a port that was finished |
| `Building.Builder.Attempt` | packages/builder/prosepkg.py:1193-1201 | the name is pushed, popped on every exit, and afterwards done or failed |
| `Building.Builder.PrepareSysroot` | packages/builder/prosepkg.py:1268-1313 | the worklist ends with a sysroot that meets every requirement of the port and of every package activated, save tools, every hard requirement supplied by a port done before or up to date; every entry, tools too, in the base system or its chosen port built with the package asked for, or, for a tool alone, not built for a reason that is told; or it fails for an entry that was asked for, with the error of that entry |
| `Building.Builder.Require` | packages/builder/prosepkg.py:1287-1305 | one entry, in every case: nothing for what the base system has, an error when nothing provides it, the provider built, a tool whose build failed passed over, any other failure passed on, an error when the package is not one of the port built |
| `Building.GrantedIsProvided` | packages/builder/prosepkg.py:1287-1305 | so of a port that is built no entry is one that nothing provides, and the chosen port of none was built without the package asked for |
| `Building.ToolStops` | packages/builder/prosepkg.py:1287-1305 | a build-time tool stops a build if and only if nothing provides it or its port has no package of the suffix, with which error; one whose build failed does not |
| `Building.ToolNobodyProvides` | packages/builder/prosepkg.py:1287-1305 | a run in which one does: libdom, whose phases all work, fails for a tool that nothing provides |
| `Building.ToolLacksPackage` | packages/builder/prosepkg.py:1287-1305 | a run in which the port of a tool is built but has no such package: the build fails, although all phases of both work |
| `Building.Builder.BuildPort` | packages/builder/prosepkg.py:1203-1252 | one port: refused as broken with nothing recorded; failed and recorded, with the reason, a phase or an entry of its sysroot; or built, recorded and its packages stored, and then every entry was provided; its packages are not touched when it fails; a resumed one is built if and only if its phases work |
| `Building.Builder.Leave` | packages/builder/prosepkg.py:1195-1201 | a port that is done joins the order of finishing after its suppliers |
| `Building.Builder.ProviderOf` | packages/builder/prosepkg.py:1159-1169 | none, the chosen candidate, or nothing provides it |
| `Building.DeadlockIsNeverBuilt` | packages/builder/prosepkg.py:1179-1201 | ports that each have a hard requirement only they provide, as in a cycle, are never built in a run that neither resumes nor reuses one |
| `Building.LedgerEnters` | packages/builder/prosepkg.py:1193-1194 | entering a name keeps the ledger of names |
| `Building.LedgerLeaves` | packages/builder/prosepkg.py:1195-1200 | so does leaving it, done or failed |
| `Building.Builder.Package` | packages/builder/prosepkg.py:1636-1671 | of a package the files left are the last one made, or the old ones when none is made |
| `Building.BuildAll` | packages/builder/prosepkg.py:1770-1786 | a run over several ports: each is done, or up to date, or listed as failed, and those listed are ports that failed or that there are none of; forced, or with nothing on record before, none is passed over as up to date; stopping, the one that failed, and every port before it done |
| `Building.BuiltIsUpToDate` | packages/builder/prosepkg.py:1182-1187 | a port that was built, of packages of different names, is up to date: while nothing is removed no later run builds it again unless asked to |
| `Providers.ChooseProvider` | packages/builder/prosepkg.py:1094-1115 | the newest candidate of its name, built before unbuilt, supported before untested before broken, then by name; none exactly when all are cross or bootstrap variants |
| `Providers.ChoiceIsBest` | packages/builder/prosepkg.py:1094-1115 | against every other name that qualifies: never unbuilt beside a built one, never broken beside one that is not, never untested beside one supported, and the first of equals |
| `Providers.LessIs` | packages/builder/prosepkg.py:1110-1115 | names are ordered by the first place they differ in |
| `Providers.VariantIs` | packages/builder/prosepkg.py:1100 | which names never qualify: those that hold _cross_ or end in _bootstrap |
| `Providers.OneChoice` | packages/builder/prosepkg.py:1094-1115 | there is one such choice |
| `Providers.Newest` | packages/builder/prosepkg.py:1131-1146 | the newest version that is not broken, or the newest of all |
| `LocalListing.CopyThenAsk` | packages/builder/prosepkg.py:2269-2348 | a package just copied in, its entries moved in whatever order, is not listed for update by the next run, whatever order its listing is read in, exactly when no folder made for it has two icons; the copy fails exactly when something is in the way, a link that is not moved before included |
| `LocalListing.CopyIsUpToDate` | packages/builder/prosepkg.py:2336-2349 | the same of the two listings |
| `LocalListing.ListingsAgree` | packages/builder/prosepkg.py:2213-2266 | the listing expected after categorizing is the listing of the tree categorized, exactly when no folder has two icons |
| `LocalListing.TwoIcons` | packages/builder/prosepkg.py:2245-2262 | there is such a package: the listing appends an icon where the edit overwrites it |
| `LocalListing.ListedForEver` | packages/builder/prosepkg.py:2269-2348 | it is copied in, and the next run lists it for update, whatever the vendor and its other attributes |
| `LocalListing.CategorizeListing` | packages/builder/prosepkg.py:2245-2266 | the loop over a listing, in any order, gives the specified listing |
| `LocalListing.FollowOne` | packages/builder/prosepkg.py:2235-2237 | where a relative link leads: into a name, out of it by two dots, nowhere by one |
| `LocalListing.FollowOn` | packages/builder/prosepkg.py:2235-2237 | its parts followed one after another |
| `LocalListing.PartsAre` | packages/builder/prosepkg.py:2235-2237 | which are the target between its slashes |
| `LocalListing.MovedLinkLeadsTheSame` | packages/builder/prosepkg.py:2235-2237 | a relative link moved one directory down leads where it led |
| `LocalPackages.Extracted.Categorize` | packages/builder/prosepkg.py:2213-2242 | the loop that makes folders and moves links edits the tree to exactly the specified one, or fails when a folder or an entry is in the way |
| `LocalPackages.Extracted.RemoveBlocked` | packages/builder/prosepkg.py:2147-2163 | the two loops leave exactly what is not blocked, and report exactly the applications and entries taken out |
| `LocalPackages.BelowTops` | packages/builder/prosepkg.py:2147-2163 | what is gone is what was reported and all that was below it |
| `PackageTree.InMenuIs` | packages/builder/prosepkg.py:2157-2162 | the entries of the menu are those below it, not itself |
| `PackageTree.UnblockedListingIsListing` | packages/builder/prosepkg.py:2166-2180 | the listing without blocked entries is the listing of the tree without them |
| `PackageTree.UnblockedIsWellFormed` | packages/builder/prosepkg.py:2147-2163 | nothing is left without its directory |
| `ChipTheorems.CutAnywhere` | tools/hvgpu/chip.swift:250-344 | render(n) then render(m) is render(n + m): samples and state |
| `ChipObject.FrameOfANewChip` | tools/hvgpu/chip.swift:258-265 | after n samples of a new chip, in however many calls and with whatever register writes between them and by the routine, frame is n / 960 and the countdown 960 - n mod 960 |
| `ChipObject.ReachableIsSound` | tools/hvgpu/chip.swift:194-344 | after any register writes, any rendering and any routine, every envelope is in 0..255 * 65536, every accumulator in 32 bits, every noise register non-zero in 23 bits, every register in range |
| `ChipObject.Chip.Render` | tools/hvgpu/chip.swift:250-344 | the loop over samples leaves the specified state and writes the samples where it was asked to, and nothing else |
| `ChipObject.Chip.Sound` | tools/hvgpu/chip.swift:272-316 | the three voices moved on from what all were before |
| `ChipObject.Advanced` | tools/hvgpu/chip.swift:194-227 | a sample of an envelope |
| `ChipTheorems.ReleaseEnds` | tools/hvgpu/chip.swift:120-125 | a released voice falls silent exactly for release registers 0 to 13, or when it is silent already |
| `ChipTheorems.ReleaseRests` | tools/hvgpu/chip.swift:208-224 | a release of register 14 or 15 that is not silent comes to rest, for ever: at level 6, or 14, when it begins above, where it is when it does not |
| `ChipTheorems.WhereReleasesHang` | tools/hvgpu/chip.swift:208-224 | a release stands still exactly at levels up to 6 for register 14 and up to 14 for 15 |
| `ChipEnvelopes.EnvelopeByItself` | tools/hvgpu/chip.swift:194-344 | in the chip, however it is rendered and whatever else is written, the envelope of a voice whose own registers are left alone is the envelope alone after as many samples |
| `ChipEnvelopes.VoiceComesToRest` | tools/hvgpu/chip.swift:194-344 | so from some sample on a released voice of the chip is silent for registers 0 to 13, and for 14 and 15 at level 6, or 14, or where it began |
| `ChipTheorems.ReleaseFalls` | tools/hvgpu/chip.swift:208-224 | the level is the measure: a step down each sample at the least |
| `ChipTheorems.TailFlattens` | tools/hvgpu/chip.swift:208-215 | the lower the level, the slower it falls |
| `ChipTheorems.AttackPeaks` | tools/hvgpu/chip.swift:51-55 | an attack always reaches the top and goes on to its decay |
| `ChipTheorems.NoiseNeverDies` | tools/hvgpu/chip.swift:296-300 | the noise register stays non-zero in its 23 bits |
| `ChipTheorems.ShiftIsInjective` | tools/hvgpu/chip.swift:296-300 | its step is injective |
| `ChipRegisters.WaveOne` | tools/hvgpu/chip.swift:148-192 | wave 1 is a triangle: it rises over half a turn by a step for each 2048 of phase, and falls as it rose |
| `ChipRegisters.WaveTwo` | tools/hvgpu/chip.swift:148-192 | wave 2 rises over the whole turn |
| `ChipRegisters.SawNeverFalls` | tools/hvgpu/chip.swift:148-192 | and never falls within a turn |
| `ChipRegisters.WaveFour` | tools/hvgpu/chip.swift:148-192 | wave 4 is nothing for pw parts of 4096 of a turn, and everything after |
| `ChipRegisters.WaveEight` | tools/hvgpu/chip.swift:148-192 | wave 8 is eight bits of the noise register, by their numbers |
| `ChipRegisters.WaveSix` | tools/hvgpu/chip.swift:148-192 | waves selected together are heard as their AND: a sawtooth while the pulse is high |
| `ChipRegisters.AndIsBitwise` | tools/hvgpu/chip.swift:156-192 | which is bit by bit |
| `ChipRegisters.SyncedBy` | tools/hvgpu/chip.swift:272-306 | voice 0 is synced by 2, 1 by 0 and 2 by 1: it begins anew when the phase of that one falls, as it was before any sync; and when its noise register shifts |
| `ChipRegisters.RungBy` | tools/hvgpu/chip.swift:306-316 | and its triangle is turned over while that one is in the second half of its turn |
| `ChipRegisters.RegisterShifts` | tools/hvgpu/chip.swift:296-300 | the noise register moves up a bit, and bits 22 and 17 decide the lowest |
| `ChipRegisters.StepPerSample` | tools/hvgpu/chip.swift:102-109 | the frequency register is in steps of 985248 / 2^24 Hz, to within one part of 2^32 of a turn a sample |
| `ChipRegisters.RatesOf` | tools/hvgpu/chip.swift:120-128 | an attack takes the milliseconds of its register for 255 levels, decay and release three times as long; the sustain level is 17 times its register |
| `ChipRegisters.FallsBySteps` | tools/hvgpu/chip.swift:208-215 | a decay or release is divided at levels 93, 54, 26, 14 and 6, by 2 to 30 |
| `ChipRegisters.EnvelopePhases` | tools/hvgpu/chip.swift:194-227 | up to 255, down to the sustain level to stay there, and let go down to nothing |
| `ChipRegisters.Gates` | tools/hvgpu/chip.swift:131-132 | the gate starts an attack or a release from wherever the envelope is |
| `ChipRegisters.PutsIn` | tools/hvgpu/chip.swift:306-320 | a voice puts in its wave around the middle times its level, nothing when idle |
| `ChipRegisters.RegistersFit` | tools/hvgpu/chip.swift:110-147 | which bits of a register count, and which stop at their ends |
| `ChipRegisters.NewRegisters` | tools/hvgpu/chip.swift:60-101 | what a new chip is set to |
| `ChipObject.ReachableIsTuned` | tools/hvgpu/chip.swift:232-265 | in every reachable state the coefficients of the filter are those of its registers, or wait to be worked out |
| `ChipObject.SampleIsTuned` | tools/hvgpu/chip.swift:250-344 | and every sample is mixed with those of the registers as they are in it, the routine of a frame having written them first |
| `Player.RefPlayer.RenderAll` | tools/chiptest/player.swift:52-73 | rendering in spans between steps gives the samples and state of the player that looks for due steps before every sample |
| `Spans.SpanIsPlain` | tools/chiptest/player.swift:55-71 | one span is as many single samples, whatever is rendered, as long as rendering may be cut anywhere |
| `Spans.AppliedOnTime` | tools/chiptest/player.swift:56-64 | for steps in order each is applied at exactly its own sample |
| `Player.ScheduleIsInOrder` | tools/chiptest/player.swift:13 | and a schedule is in order |
| `Player.SynthIsCuttable` | tools/chiptest/player.swift:55-71 | rendering may be cut anywhere, so the above is of the real chip |
| `Player.RefPlayer.NoteOn` | tools/chiptest/player.swift:15-26 | a free voice, else one that died away, else the oldest |
| `Player.VoiceTaken` | tools/chiptest/player.swift:15-23 | in numbers: the first voice with no note, else the first that has died away, else the first of those struck longest ago |
| `Player.Strikes` | tools/chiptest/player.swift:24-26 | the voice taken gets the frequency of the note and an open gate, and no other is touched |
| `Player.LetsGo` | tools/chiptest/player.swift:27-29 | the first voice with the note is let go |
| `Player.EnvelopeSettings` | tools/chiptest/player.swift:30-48 | the four envelope parameters may come one by one |
| `Player.FilterSettings` | tools/chiptest/player.swift:31-36 | each filter parameter leaves the other two |
| `Player.VoiceSettings` | tools/chiptest/player.swift:37-43 | what the other parameters set, by number, voices numbered from one; anything else is ignored |
| `Player.FreeVoicesFirst` | tools/chiptest/player.swift:15-26 | no note is cut off while a voice is free |
| `Player.OffUndoesOn` | tools/chiptest/player.swift:15-29 | a note struck on a free voice and let go leaves the voices as they were |
| `RamConsole.FindMarkers` | tools/hvgpu/main.swift:991-1007 | one pass over the pivot byte finds, for each needle that has it, exactly the ascending occurrences a naive search finds |
| `RamConsole.Watch` | tools/hvgpu/main.swift:949-1046 | a run of scans of memory that may change in any way between them: for each marker, since the scan that adopted its buffer and as long as that buffer only grew, what was printed is exactly its text up to printed; and the longest buffer known has been printed to its end |
| `RamConsole.ExactSinceAdopted` | tools/hvgpu/main.swift:1017-1046 | the same at every scan of the run, whatever the other markers and the rest of memory do |
| `RamConsole.ExactAfterScan` | tools/hvgpu/main.swift:949-974 | one scan, of one marker: exact afterwards if and only if this scan adopted a buffer for it or it was exact before |
| `RamConsole.LostIsReplaced` | tools/hvgpu/main.swift:976-1046 | when the buffer is overwritten and the marker is elsewhere, this very scan searches, adopts the longest buffer in memory and prints all of its text |
| `RamConsole.Console.Scan` | tools/hvgpu/main.swift:949-974 | places dropped, memory searched when it is time or a buffer was lost, buffers followed: the specified state |
| `RamConsole.ExactAfterLook` | tools/hvgpu/main.swift:1017-1046 | a look at one marker prints nothing twice and skips nothing: exact afterwards if and only if it adopted a buffer or was exact before |
| `RamConsole.EachByItself` | tools/hvgpu/main.swift:1017-1046 | following the markers in turn does to each what a look at it alone does |
| `RamConsole.CaughtAfterScan` | tools/hvgpu/main.swift:1017-1046 | after a scan the longest of the places known is followed and has been printed to its end |
| `RamConsole.BestIsLongest` | tools/hvgpu/main.swift:1017-1030 | the place chosen is the first of the longest |
| `RamConsole.Console.Follow` | tools/hvgpu/main.swift:1017-1046 | the loop over the markers gives the specified state, and whether any buffer was adopted |
| `RamConsole.Console.DropMoved` | tools/hvgpu/main.swift:976-988 | the places that no longer hold their marker are dropped, and whether the followed one is among them |
| `RamConsole.DroppedAt` | tools/hvgpu/main.swift:976-988 | of each marker those places are dropped and no others |
| `RamConsole.TextEndIs` | tools/hvgpu/main.swift:1010-1014 | the text ends at the first NUL, at the end of memory or 1 MiB on |
| `RamConsole.ShownAsItIs` | tools/hvgpu/main.swift:1040-1042 | bytes from blank to tilde, new lines and tabs are shown as they are, any other as a dot |
| `Blit.NeonMoveUp` | tools/bench/blitbench.c:58-63 | the blocks moved from the top are moved as they were before, overlapping or not |
| `Blit.MoveUpIsMemMove` | tools/bench/blitbench.c:58-63 | that is memmove exactly when what is left below a whole block is there already: always for whole blocks |
| `Blit.GfxSet32` | tools/bench/blitbench.c:79-91 | the narrow fill sets two pixels for every eight bytes and one for four left, none for a negative count |
| `Blit.GfxSet32Vector` | tools/bench/blitbench.c:95-115 | the widened fill leaves the same memory for every byte count |
| `Blit.FillsWholePixels` | tools/bench/blitbench.c:79-91 | how much is set: all of it exactly for a non-negative multiple of four |
| `Blit.LowestFirst` | tools/bench/blitbench.c:79-91 | a pixel is the bytes of its colour, the lowest first |
| `Blit.WordIsTwoPixels` | tools/bench/blitbench.c:79-91 | a colour above itself in 64 bits is two pixels of it |

## Left out

- Floating point: sums and products of coordinates and areas are exact reals; the synthesiser's filter and final mixing are functions that are not looked into; the frequency register of a note is a function of its pitch.
- Machine integers: Swift's overflow traps and C's 32-bit counts are not modelled; a 32-bit accumulator wraps.
- hviftool: four-byte floats of affine transformers are kept as bit patterns; arcs are a function from an arc to cubics; numbers are tokens, so number text and white space are not modelled; reading and writing of attributes, colours, text and messages, previews and PNG.
- HvifTheorems.RoundTrip: error texts are not modelled, only which error it is.
- FillRules.RulesAgreeExactly: for closed subpaths that do not cross themselves; of all others `FillRules.RulesAgreeAnywhere` speaks.
- AbcParser.Parse: over tokens, from a state in which a key has been read, as `readNote` needs; characters, tempo, titles, MIDI directives and the text of chip settings are not modelled, nor a tuplet of no notes, which divides by zero.
- AbcSchedule.Schedule: the library's sort is an insertion sort; any sort by that order gives the same (`AbcSchedule.OneOrder`).
- InstallClosure.Closure: package sets (`@name`) and package files given by path are not modelled; requirements are names, their version constraints dropped as the source drops them. The order is stated as far as each package coming after one that asks for it.
- Building.Builder.Build: recipes, sources, phases and packaging are a table of which ports succeed; a failure half way through packaging leaves the old packages; results written by another run at the same time are not seen; exceptions other than the program's own are not modelled.
- LocalPackages.Extracted.Categorize: symbolic links are not followed: one in the place of a category folder is taken to lead nowhere, so that the folder can only be made once that link is moved itself; the order of names is any order, the sorted one included.
- LocalListing.CopyThenAsk: a listing is a map of paths, parsing of the package tool's output is not modelled; the size listed for a link is 0. Its packages are those of `LocalPackages.Extracted.Categorize`.
- ChipObject.Chip.Render: the 50 Hz routine is a function from the registers and the frame to register writes; panning is not modelled.
- RamConsole.Watch: when a scan searches is a parameter of each, since it depends on the clock; memory keeps its size; mapping it, the log file and restarting are not modelled.
- RamConsole.Console.Scan: the text printed is the bytes as cleaned; splitting it into lines is not modelled.
- Blit.NeonMoveUp: for moves to a higher or the same address, as its callers use it; `neon_copy`, `neon_fill` and the zeroing loop are easy members.
- Input, output, windows, sockets, devices and the guest's test programs.
