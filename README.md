# FancyZoneGen zone generator, modelled in Dafny

FancyZoneGen is a single C# script. It reads the PowerToys FancyZones file
`custom-layouts.json` and collects the layouts whose `type` is `"canvas"`. If there is
exactly one, it picks it. Otherwise it asks the user to choose one by number. It then reads
the layout's reference width and height and backs the original file up under a name that
contains the MD5 hash of its bytes, unless that backup already exists. Finally it replaces
the layout's `info.zones` with a fixed grid of 21 rectangles and writes the document back.

The grid is built like this:

- There are seven column specs: the full width, then the left and the right part of the
  width split at 30%, 50% and 70%.
- There are three row specs: the full height, the top half and the bottom half.
- Every column spec is paired with every row spec, column by column.

The project has four modules:

- `Wrappers` (`wrappers.dfy`): the `Option` type.
- `ZoneGrid` (`zone_grid.dfy`): the pure grid builder. These are functions over sequences,
  following the LINQ pipeline of the source. The lemmas cover the count, the order, the
  first zone, how left and right zones tile a row, how the two half rows stack, and
  containment in the canvas.
- `Layouts` (`layouts.dfy`): the canvas filter, as a function over the `custom-layouts`
  array, and the selection rule. The selection is a method with a loop over the answers
  typed at the prompt, proved against the function `Choice`.
- `Script` (`script.dfy`): the whole run, as a method over a `Files` object that holds the
  configuration file and the hash-named backups. It covers:
  - exit code 1 when the file is missing;
  - exit code 2 when no canvas layout exists;
  - the unhandled-exception paths;
  - backup only when no backup exists for the current content;
  - the write-back of the zones into the chosen entry.

  Every run that does not end with exit code 0 leaves both files untouched.

The filter keeps references to elements of the JSON array. The model represents a reference
by the element's position in the array, so that the write-back can update the chosen entry
in place.

Three behaviours of the code that are easy to miss:

- C# `int` division truncates toward zero (line 77). For a negative odd `ref-height` the
  half is therefore one more than floor division would give. `ZoneGrid.Half` models the
  truncation.
- Reading `type` (`JsonExtensions.GetValue`, lines 123-126) throws for any element that is
  not JSON null and is either not an object or has no string `type`. The null-conditional
  access on line 25 skips only JSON null. Such an element aborts the whole run
  (`Layouts.TypeUnreadable`).
- With two or more candidates, the listing on line 47 reads the `name` of every candidate
  before the first answer is read. A missing name therefore aborts the run, even for a
  layout that would not be chosen. `Script.AllNamed` models this.

## Model

| member | source | states |
|---|---|---|
| `ZoneGrid.Half` | FancyZoneGen/Program.cs:77 | C# `int` division by 2 truncates toward zero: for `n >= 0` the half is non-negative and two halves miss `n` by at most one; for `n < 0` the half is non-positive and within one of `n` from the other side |
| `ZoneGrid.SplitAt` | FancyZoneGen/Program.cs:82-86 | a split pixel gives a left column `{X:0, width:px}` and a right column that starts where the left ends, their widths summing to the reference width |
| `ZoneGrid.SplitAll` | FancyZoneGen/Program.cs:80-86 | `SelectMany` over the split pixels yields two columns per pixel, the left part of pixel i at 2*i and the right part at 2*i+1 |
| `ZoneGrid.Columns` | FancyZoneGen/Program.cs:78-88 | the column specs are `1 + 2*|pixels|` in number: the full width first, then the left and right part of each split pixel in order |
| `ZoneGrid.Rows` | FancyZoneGen/Program.cs:77-94 | three row specs: full height `{0, refHeight}`, top half `{0, Half(refHeight)}` and bottom half `{Half(refHeight), Half(refHeight)}` for every `int` height, the truncating `refHeight / 2`; the bottom starts where the top ends, and for a non-negative height they fit inside it, leaving at most one row uncovered |
| `ZoneGrid.Product` | FancyZoneGen/Program.cs:90-101 | the column-major Cartesian product with the three row specs as inner sequence: `3*|cols|` zones, zone `3*c + k` taking X and width from column c and Y and height from row k |
| `ZoneGrid.Grid` | FancyZoneGen/Program.cs:78-102 | for any number of split pixels the grid has `3 * (1 + 2*|pixels|)` zones |
| `ZoneGrid.Zones` | FancyZoneGen/Program.cs:78-102 | the zone list written to `info.zones` has exactly 21 entries |
| `ZoneGrid.GridOrder` | FancyZoneGen/Program.cs:78-101 | ordering: zones 0-2 are the full width with rows full, top, bottom; zones `3*(1+2i)+k` and `3*(2+2i)+k` are the left and right part of split pixel i with row k |
| `ZoneGrid.FirstZoneIsCanvas` | FancyZoneGen/Program.cs:88-92 | the first zone is the whole canvas `{X:0, Y:0, width:refWidth, height:refHeight}` |
| `ZoneGrid.SplitZonesTile` | FancyZoneGen/Program.cs:82-86 | for each split pixel and row, the left zone starts at X 0 with width px, the right zone starts where it ends, their widths sum to the reference width, and they share Y and height |
| `ZoneGrid.HalvesStack` | FancyZoneGen/Program.cs:77-94 | within each column, the full zone spans the height, the top and bottom zones share the column's X and width, have equal heights, do not overlap, and for a non-negative height lie inside it leaving at most one row |
| `ZoneGrid.ColumnWithin` | FancyZoneGen/Program.cs:82-88 | with split pixels between 0 and the width, every column spec has non-negative width and lies within the reference width |
| `ZoneGrid.ZonesInsideCanvas` | FancyZoneGen/Program.cs:77-102 | with split pixels between 0 and the width and a non-negative size, every generated zone has non-negative size and lies inside the reference canvas |
| `ZoneGrid.Example1920x1080` | FancyZoneGen/Program.cs:76-102 | for 1920x1080 split at 576/960/1344 the first zone is the canvas and the list holds `{0,0,576,1080}` and `{576,0,1344,540}` |
| `Layouts.CanvasPositions` | FancyZoneGen/Program.cs:23-26 | the filter aborts exactly when some element's `type` cannot be read; otherwise it yields positions in increasing order (original order kept) of entries whose type is "canvas", and every canvas entry is among them |
| `Layouts.CanvasPositionsCount` | FancyZoneGen/Program.cs:23-26 | the filter's result has as many elements as the array has canvas entries |
| `Layouts.NoCanvas` | FancyZoneGen/Program.cs:28-32 | the candidate list is empty (exit code 2) exactly when no entry is a canvas layout |
| `Layouts.FirstAcceptable` | FancyZoneGen/Program.cs:43-52 | the answer the loop stops at is acceptable (an integer in `[1, count]`) and every earlier answer is not; if there is none, no answer is acceptable |
| `Layouts.Choice` | FancyZoneGen/Program.cs:36-53 | one candidate is chosen without reading; otherwise the n-th answer read is `index = k+1` with `1 <= index <= count`, chooses candidate k, and the n-1 earlier answers were rejected |
| `Layouts.SelectLayout` | FancyZoneGen/Program.cs:36-54 | the loop returns `layouts[index - 1]` for the first acceptable answer and how many answers it read; a single candidate is returned without reading; it returns nothing when the answers run out |
| `Layouts.RepromptExample` | FancyZoneGen/Program.cs:43-53 | with two candidates and answers "abc", "5", "1", the first two are rejected and candidate 1 is chosen after three reads |
| `Script.Candidates` | FancyZoneGen/Program.cs:23-26 | the candidates exist exactly when the root is an object, `custom-layouts` is an array and every element's type is readable; they are then that array and exactly the filter's result, that is, every canvas entry's position in array order and nothing else |
| `Script.Dimensions` | FancyZoneGen/Program.cs:57-60 | the reference size is read exactly when the chosen entry has `info`, `name`, `ref-width` and `ref-height`, and it is the pair of the two values |
| `Script.WithZones` | FancyZoneGen/Program.cs:105 | replacing `info.zones` sets it to the new zones and changes nothing else: not the other entries, nor the chosen entry's type, name or reference size |
| `Script.Backup` | FancyZoneGen/Program.cs:64-73 | after the backup step a backup exists for the content's hash, an existing backup is never overwritten, and a new one holds the original bytes |
| `Script.BackupIdempotent` | FancyZoneGen/Program.cs:64-73 | repeating the backup step for the same hash changes nothing |
| `Script.Run` | FancyZoneGen/Program.cs:5-115 | exit 1 when the file is missing; exit 2 when no canvas layout exists; a crash when the root, array, a type, a listed name, or the chosen layout's info, name or size cannot be read; any run not ending in exit 0 leaves both files unchanged; on success the backup is added if absent and the file holds the document with the chosen entry's zones replaced by the 21-zone grid |

## Left out

- Floating-point split pixels: `(int)(pct * refWidth)` (line 80) and the formatted percentages (line 76) are not modelled; the run takes the split pixels from a parameter `splitPixels`, in the order 30%, 50%, 70%.
- The 32-bit range of `ref-width`, `ref-height` and the zone coordinates is not modelled (Dafny integers are unbounded); for split pixels truncated from 30/50/70% of the width, `refWidth - px` cannot overflow, so nothing is lost there. A `ref-width` or `ref-height` that is not an `int` counts as unreadable.
- JSON parsing, serialisation and the `JsonNode` tree (lines 19, 105, 107-111) are parameters `parse` and `serialize`; the document is reduced to its `custom-layouts` array and the fields the script reads, so properties of the root and of layouts other than `type`, `name` and `info` are not represented (the program writes them back unchanged).
- MD5 hashing, hex formatting and `Path.ChangeExtension` (lines 20, 64) are reduced to a parameter `hashHex`; a backup is identified by that hash alone, so collisions are not considered.
- File-system access (lines 5, 8, 18, 65, 68, 107) is reduced to the two fields of `Files`; the path expansion and the overwrite flag of `File.Copy` are not modelled, and reading the file happens in one step.
- Console output, prompts and `Console.ReadLine` (lines 6, 10, 30, 45-51, 61, 67, 72, 76, 113) are left out; the prompt's answers are a finite sequence of `int.TryParse` results. The program keeps prompting forever once input ends (`ReadLine` returns null and does not parse); the model reports `Prompting` when the sequence runs out.
- Which exception aborts a run, and its message, is not modelled: every unhandled exception is `Crashed`.
