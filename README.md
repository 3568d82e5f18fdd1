# TTSModManager core, modelled in Dafny

TTSModManager turns a Tabletop Simulator save (one large JSON object) into a
tree of source files and builds the save again from that tree. This project
models the part of it that needs no real filesystem:

- the **Lua module bundler** (`Bundle`, `UnbundleAll`, `Unbundle`,
  `getAllReqValues`) and the legacy **require inliner** (`ReplaceRequire`,
  `EncodeFromFile`);
- the **XML include bundler** (`BundleXML`, `UnbundleAllXML` and their
  indentation helpers);
- the **object tree** (`objConfig`, `db`, `ParseAllObjectStates`,
  `PrintObjectStates`): objects parsed from JSON or from a directory of JSON
  files, printed back into nested JSON or out to files;
- the **script handler**, which chooses between an inline `LuaScript`/`XmlUI`
  value and a file named by `…_path`;
- **`Reverser.Write`**, which moves long top-level values of a save into
  files, and **`Mod.generate`** with `tryPut`, which reads them back;
- the shape-checked **JSON access helpers** (`Force*`/`Try*`,
  `ConvertToObjArray`) and the **number smoother** for transforms and snap
  points.

Every reader, writer and directory explorer is a map:
- a text reader maps a file name to its contents, and a missing name is an
  error;
- a writer is a map update;
- a directory explorer maps a directory to its files and sub-directories.

JSON values form a datatype that keeps the Go dynamic types apart where the
code's type assertions tell them apart (`int` versus `int64`,
`[]interface{}` versus `[]map[string]interface{}` versus `[]string`). A Go
string's `len` is its UTF-8 byte length. Regular expressions are written out
as scanners that follow Go's leftmost-first matching. Operations that loop or
update state are methods. Each is proved equal to a specification function,
and the source's promises are proved about those functions as lemmas.

One module per source file:

| file | module | source |
|---|---|---|
| json.dfy, text.dfy | Json, Text | value model and string helpers |
| conversions.dfy | Conversions | file/conversions.go |
| types.dfy | Types | types/types.go |
| luaops.dfy | LuaOps | file/luaops.go |
| luabundler.dfy, luabundler_props.dfy | LuaBundler, LuaBundlerProps | bundler/luabundler.go |
| luaunbundle_props.dfy | LuaUnbundleProps | bundler/luabundler.go, reading a bundle back |
| xmlbundler.dfy, xmlbundler_props.dfy | XmlBundler, XmlBundlerProps | bundler/xmlbundler.go |
| smoother.dfy | Smoother | objects/numbersmoother.go |
| handler.dfy | Handler | handler/bundlehandler.go |
| objects.dfy, objects_props.dfy | Objects, ObjectsProps | objects/objects.go |
| keys.dfy | ModKeys | the key lists of mod/generate.go |
| reverse.dfy | Reverse | mod/reverse.go |
| generate.dfy, generate_props.dfy | Generate, GenerateProps | mod/generate.go |
| roundtrip.dfy | RoundTrip | mod/reverse.go against mod/generate.go |

## Model

| member | source | states |
|---|---|---|
| Text.Utf8Len | mod/reverse.go:47 | A string's Go length (its UTF-8 byte count) is at least its character count and at most four times it |
| Text.Utf8LenConcat | objects/objects.go:150 | The byte length of a concatenation is the sum of the byte lengths |
| Text.ReplaceFirst | bundler/xmlbundler.go:103 | `strings.Replace(s, pat, rep, 1)` leaves a text without `pat` unchanged, and an empty pattern inserts `rep` at the front |
| Text.ReplaceAt | bundler/xmlbundler.go:103 | Replacing the first occurrence replaces the occurrence that ends the earliest prefix holding it |
| Text.Split | bundler/xmlbundler.go:12 | `strings.Split` on a one-character separator yields at least one piece and no piece holds the separator |
| Text.JoinSplit | bundler/xmlbundler.go:45 | Joining the pieces of a split gives back the text |
| Text.SplitJoin | bundler/xmlbundler.go:55 | Splitting joined lines that hold no separator gives back the lines |
| Text.Sort | bundler/luabundler.go:172-174 | The sorted names are in byte order and a permutation of the input |
| Text.SortedKeys | bundler/luabundler.go:191-195 | The sorted key list is strictly ascending and holds exactly the map's keys |
| Text.StrictlySortedUnique | bundler/luabundler.go:191-195 | Two strictly ascending lists with the same members are equal, so the module order is unique |
| Text.KeysInOrder | bundler/luabundler.go:191-195 | Collecting and sorting the keys gives exactly the sorted key list |
| Conversions.TruncToInt | file/conversions.go:105-109 | `int64(f)` truncates toward zero |
| Conversions.ForceParseIntoStr | file/conversions.go:14-24 | A present string is copied out and its key deleted; a missing key or a non-string is an error that changes neither the map nor the destination |
| Conversions.TryParseIntoStr | file/conversions.go:9-11 | Same state effect as the Force variant, error discarded |
| Conversions.Strings | file/conversions.go:41-50 | The strings of an all-string array, one per element, in order |
| Conversions.ForceParseIntoStrArray | file/conversions.go:32-60 | A `[]string` or an all-string `[]interface{}` is copied in order and the key deleted; a missing key, a non-string element or any other type is an error with map and destination unchanged |
| Conversions.TryParseIntoStrArray | file/conversions.go:27-29 | Same state effect as the Force variant, error discarded |
| Conversions.ForceParseIntoStrMap | file/conversions.go:66-90 | A `map[string]string` or an object whose values are all strings is copied key for key and the key deleted; anything else is an error with both unchanged |
| Conversions.TryParseIntoStrMap | file/conversions.go:62-64 | Same state effect as the Force variant, error discarded |
| Conversions.ForceParseIntoInt | file/conversions.go:98-113 | An `int64` is copied and a `float64` truncated, and the key deleted; a missing key or another type is an error with both unchanged |
| Conversions.TryParseIntoInt | file/conversions.go:93-95 | Same state effect as the Force variant, error discarded |
| Types.ObjectElements | types/types.go:23-33 | The kept objects are never more than the elements |
| Types.ObjectElementsOfObjects | types/types.go:23-33 | From an array of objects every element is kept, in order |
| Types.ConvertToObjArray | types/types.go:12-35 | A typed object list is returned as is; a non-array is an error; an array converts exactly when every element is an object or nil, and then nils are skipped and objects kept in order |
| LuaOps.RequireAt | file/luaops.go:64 | A matched require line starts a line, opens with `require(`, ends a line and names only `[a-zA-Z0-9/]` characters |
| LuaOps.RequiresFrom | file/luaops.go:64-68 | The matches are every require line of the script, left to right and not overlapping |
| LuaOps.PiecesFrom | file/luaops.go:66-70 | Splitting around the matches gives one piece more than there are matches |
| LuaOps.Texts | file/luaops.go:68 | There is one matched text per match |
| LuaOps.SplitLossless | file/luaops.go:66-68 | Interleaving the pieces and the matched texts gives back the script |
| LuaOps.Wrapped | file/luaops.go:87-91 | Each expansion is glued in with a newline on each side |
| LuaOps.ExpandAll | file/luaops.go:73-85 | A successful expansion yields one text per require |
| LuaOps.ExpandAllPointwise | file/luaops.go:77-84 | The k-th expansion is `EncodeFromFile(name_k + ".ttslua")`, so nested requires are inlined too |
| LuaOps.ExpandAllFails | file/luaops.go:80-83 | A require whose file cannot be read makes the whole expansion fail |
| LuaOps.ExpandRequires | file/luaops.go:73-85 | The expansion loop computes exactly the expansion function |
| LuaOps.ExpandRequire | file/luaops.go:77-83 | One pass expands the next require, or fails exactly as the expansion function does |
| LuaOps.Glue | file/luaops.go:87-92 | The final string is the pieces with the wrapped expansions between them |
| LuaOps.EncodeFromFile | file/luaops.go:50-59 | Reading a file under the base path and inlining its requires |
| LuaOps.ReplaceRequire | file/luaops.go:63-95 | The method computes exactly the inliner's specification |
| LuaOps.NoMatchNoRequires | file/luaops.go:64-68 | A script with no require line has no matches |
| LuaOps.NoRequiresUnchanged | file/luaops.go:63-94 | A script with no require line is returned unchanged |
| LuaOps.ReplaceRequireShape | file/luaops.go:87-92 | A successful result is the split pieces with one expansion per matched require, in order |
| LuaOps.MissingRequireFails | file/luaops.go:80-83 | A required file missing from the reader makes `ReplaceRequire` fail |
| LuaBundler.IsBundled | bundler/luabundler.go:68-74 | True exactly when the text contains `__bundle_register` |
| LuaBundler.ReqAt | bundler/luabundler.go:210 | A require match names only `[-a-zA-Z0-9/._@]` characters and lies inside the text |
| LuaBundler.ReqMatchesFrom | bundler/luabundler.go:210-211 | `FindAllString` yields matches inside the text, left to right and not overlapping |
| LuaBundler.ReqMatchesSound | bundler/luabundler.go:210-211 | Every reported match is a match of the require pattern where it starts |
| LuaBundler.ReqMatchesComplete | bundler/luabundler.go:210-211 | Every position where the require pattern matches lies inside one of the reported matches, so `FindAllString` skips none |
| LuaBundler.NoReqNames | bundler/luabundler.go:209-224 | `getAllReqValues` finds no name exactly when the require pattern matches nowhere in the text |
| LuaBundler.FindAllReqs | bundler/luabundler.go:210-211 | The matches found are each a match of the pattern, and their names are the reported names |
| LuaBundler.Names | bundler/luabundler.go:213-222 | One name per match, in match order |
| LuaBundler.ReqNames | bundler/luabundler.go:209-224 | Every required name is a valid module name |
| LuaBundler.MatchAgain | bundler/luabundler.go:214-220 | Matching the name pattern again inside a matched require recovers the same name, so the error branch cannot fire |
| LuaBundler.GetAllReqValues | bundler/luabundler.go:209-224 | Returns the required names in textual order, each a valid module name |
| LuaBundler.CollectNames | bundler/luabundler.go:214-222 | The loop keeps one name per match, in match order |
| LuaBundler.MatchName | bundler/luabundler.go:215-220 | The second pattern on a matched require gives that match's name |
| LuaBundler.Header | bundler/luabundler.go:199 | A module header starts with `__bundle_register` |
| LuaBundler.HeaderIsReplace | bundler/luabundler.go:199 | Replacing the placeholder in the function prefix by the name gives the header |
| LuaBundler.HeaderFor | bundler/luabundler.go:199 | The method computes the header |
| LuaBundler.LoadAll | bundler/luabundler.go:175-181 | Loading succeeds exactly when every name's `name.ttslua` is readable; then each name maps to its file and the other modules are kept |
| LuaBundler.LoadRequires | bundler/luabundler.go:175-181 | The loading loop computes exactly the loading function |
| LuaBundler.Closure | bundler/luabundler.go:163-183 | The breadth-first closure only ever adds modules |
| LuaBundler.Bundle | bundler/luabundler.go:155-207 | The method computes exactly the bundle specification |
| LuaBundler.GatherRequires | bundler/luabundler.go:159-183 | The queue loop computes exactly the require closure from the root script |
| LuaBundler.BundleStep | bundler/luabundler.go:164-182 | One pass pops a name, loads its sorted requires and queues them, as one step of the closure |
| LuaBundler.RenderBundle | bundler/luabundler.go:189-206 | The output is rendered from the modules in sorted order |
| LuaBundler.AppendBlocks | bundler/luabundler.go:197-202 | Appending one header, body and `end)` block per module, in list order |
| LuaBundler.RenderBy | bundler/luabundler.go:189-206 | The bundle is the preamble, a newline, the blocks in ascending name order, then the trailer |
| LuaBundler.GroupAt | bundler/luabundler.go:122 | The closing group matches exactly at a trailer or at the next `__bundle_register` |
| LuaBundler.LastGroup | bundler/luabundler.go:122 | The repeated closing group extends to its last repetition |
| LuaBundler.BlockEndAt | bundler/luabundler.go:122 | A block ending `end)` plus line breaks is followed by a closing group |
| LuaBundler.FirstBodyEnd | bundler/luabundler.go:122 | The lazy body stops at the first place where the block can end |
| LuaBundler.BodyStart | bundler/luabundler.go:122 | The greedy whitespace before a body gives way to the first choice that lets the rest match |
| LuaBundler.BodyAfterName | bundler/luabundler.go:122 | After the name comes the fixed function header and then a body that can end |
| LuaBundler.NameEnd | bundler/luabundler.go:122 | The lazy name ends at the first quote after which the block can match |
| LuaBundler.MatchAt | bundler/luabundler.go:121-139 | A block match starts at `__bundle_register("` and leaves a shorter, non-empty rest of the text |
| LuaBundler.FindFrom | bundler/luabundler.go:123 | The leftmost block match leaves a strictly shorter suffix |
| LuaBundler.FindNextBundledScript | bundler/luabundler.go:121-139 | No match gives the empty result; a match yields the name, the body and a strictly shorter leftover |
| LuaBundler.RootMatchAt | bundler/luabundler.go:97-100 | The root name is read after `__bundle_require("` |
| LuaBundler.UnbundleAll | bundler/luabundler.go:93-115 | The loop computes the unbundle specification, and on success the new root name is one of the modules |
| LuaBundler.Unbundle | bundler/luabundler.go:142-152 | Unbundling fails when scanning fails; otherwise it yields the root module; a text that is not bundled comes back verbatim |
| LuaBundlerProps.ClosureInvariant | bundler/luabundler.go:163-183 | Every module in the closure is the root text or its `name.ttslua` file, and every module has had its requires loaded |
| LuaBundlerProps.ClosureSound | bundler/luabundler.go:159-183 | The closure holds the root, comes from the sources, and holds every module any of its modules requires |
| LuaBundlerProps.NoRequiresUnchanged | bundler/luabundler.go:184-187 | A script that requires nothing is returned byte for byte |
| LuaBundlerProps.MissingModuleFails | bundler/luabundler.go:175-180 | A required module with no readable `name.ttslua` makes `Bundle` fail |
| LuaUnbundleProps.MetaPrefixClosed | bundler/luabundler.go:12-54 | The preamble holds no `("`, so no block header and no root call can start inside it |
| LuaUnbundleProps.TrailerScan | bundler/luabundler.go:121-126 | The trailer `return __bundle_require("__root")` holds no block, so scanning it gives the empty result that ends the loop |
| LuaUnbundleProps.MatchBlock | bundler/luabundler.go:121-139 | Where the block written for a module with a readable name and body starts, the block pattern captures that name and that body and leaves exactly the text after the block |
| LuaUnbundleProps.BlocksJoined | bundler/luabundler.go:197-202 | The text the loop of `Bundle` writes is the module blocks joined in sorted key order |
| LuaUnbundleProps.ScriptsOf | bundler/luabundler.go:102-109 | The scan loop over the blocks and the trailer stores each module's body under its name, over what was stored before |
| LuaUnbundleProps.RootName | bundler/luabundler.go:97-100 | With no `__bundle_require("` before the trailer, the root name read is `__root` |
| LuaUnbundleProps.UnbundleRenderedWith | bundler/luabundler.go:93-115 | After any first line without `("`, the blocks and the trailer unbundle to the module map when it has a `__root` module, and to the root error otherwise |
| LuaUnbundleProps.UnbundleRendered | bundler/luabundler.go:93-152 | Round trip with `Bundle`'s text: `UnbundleAll` gives back the module map and `Unbundle` the `__root` module's script, or both give the root error when there is no `__root` module |
| LuaBundlerProps.RenderSplit | bundler/luabundler.go:189-204 | A rendered bundle with a module has a `__bundle_register` block before the trailer |
| LuaBundlerProps.BlockStarts | bundler/luabundler.go:199-201 | Every module block starts with `__bundle_register` |
| LuaBundlerProps.RenderIsBundled | bundler/luabundler.go:189-206 | A rendered bundle is recognised as bundled |
| LuaBundlerProps.BundleIdempotent | bundler/luabundler.go:155-158 | Bundling a bundle returns it unchanged: `Bundle(Bundle(s)) == Bundle(s)` |
| LuaBundlerProps.NoEndNoBodyEnd | bundler/luabundler.go:122 | Without an `end)` no body can end |
| LuaBundlerProps.NoEndNoBodyStart | bundler/luabundler.go:122 | Without an `end)` no body can start |
| LuaBundlerProps.NoEndNoName | bundler/luabundler.go:122 | Without an `end)` no block name can be matched |
| LuaBundlerProps.NoEndNoMatch | bundler/luabundler.go:122-126 | Without an `end)` no block matches at all |
| LuaBundlerProps.NoBlockEndFails | bundler/luabundler.go:102-112 | A bundled text with no complete block fails with "root bundle not found" |
| XmlBundler.IncludeFrom | bundler/xmlbundler.go:14 | The greedy indent takes the last `<Include src="` of the line, and the name runs to the last `"/>` |
| XmlBundler.MarkerFrom | bundler/xmlbundler.go:66 | The lazy indent takes the first `<!-- include ` of the line, and the name runs to the last ` -->` |
| XmlBundler.XmlFileName | bundler/xmlbundler.go:28-31 | The fragment file is the name itself when it ends in `.xml`, and the name plus `.xml` otherwise |
| XmlBundler.PrefixAll | bundler/xmlbundler.go:51-53 | Every line, empty ones included, gets the indent in front and the line count is kept |
| XmlBundler.IndentString | bundler/xmlbundler.go:48-56 | The loop computes the indented text |
| XmlBundler.RemoveFirstAll | bundler/xmlbundler.go:102-104 | Each line loses the first occurrence of the indent and the line count is kept |
| XmlBundler.UnindentAndJoin | bundler/xmlbundler.go:100-106 | The loop computes the unindented, joined text |
| XmlBundler.BundleLinesErr | bundler/xmlbundler.go:16-39 | The first failing line's error is the result, whatever follows |
| XmlBundler.BundleXML | bundler/xmlbundler.go:11-46 | The method computes exactly the bundle specification |
| XmlBundler.BundleLine | bundler/xmlbundler.go:16-43 | One line gives itself, or the marker, the indented bundled fragment and the marker, or the first error |
| XmlBundler.CloseInclude | bundler/xmlbundler.go:77-88 | Closing stores the lines strictly between the markers, unindented, and collapses the span to one `<Include src="n"/>` line, so the array shrinks |
| XmlBundler.UnbundleAllXML | bundler/xmlbundler.go:60-98 | The loop computes exactly the unbundle specification |
| XmlBundler.PushBelow | bundler/xmlbundler.go:90 | Pushing an opened marker keeps the stack's start lines strictly decreasing below the scan position |
| XmlBundlerProps.BundleLinesNoIncludes | bundler/xmlbundler.go:16-20 | Lines without includes are copied unchanged and in order |
| XmlBundlerProps.BundleWithoutIncludes | bundler/xmlbundler.go:11-46 | A text without includes is returned unchanged |
| XmlBundlerProps.BundleLinesOk | bundler/xmlbundler.go:16-44 | Bundling succeeds exactly when every line expands |
| XmlBundlerProps.MissingIncludeFails | bundler/xmlbundler.go:32-35 | An include whose fragment file cannot be read makes `BundleXML` fail |
| XmlBundlerProps.SelfIncludeFails | bundler/xmlbundler.go:36-39 | A file that includes itself cannot be bundled |
| XmlBundlerProps.UnindentLine | bundler/xmlbundler.go:103 | Removing the indent from an indented line gives the line back |
| XmlBundlerProps.SplitIndented | bundler/xmlbundler.go:48-56 | The lines of an indented text are the original lines, each indented |
| XmlBundlerProps.UnindentIndented | bundler/xmlbundler.go:100-106 | Unindenting an indented fragment gives back the fragment |
| XmlBundlerProps.Markers | bundler/xmlbundler.go:72 | There are never more marker lines than lines |
| XmlBundlerProps.LoopWithoutMarkers | bundler/xmlbundler.go:70-92 | With no marker left, the scan changes nothing |
| XmlBundlerProps.UnbundleWithoutMarkers | bundler/xmlbundler.go:60-98 | A text without markers unbundles to the root entry holding the text |
| XmlBundlerProps.OddLoopFails | bundler/xmlbundler.go:93-95 | When open markers plus the markers left are odd, the scan ends in an error |
| XmlBundlerProps.OddMarkersFail | bundler/xmlbundler.go:93-95 | A text with an odd number of marker lines cannot be unbundled |
| XmlBundlerProps.IncludeTagMatches | bundler/xmlbundler.go:14 | An include line written from an indent and a name without `<` is read back as that indent and name |
| XmlBundlerProps.MarkerTagMatches | bundler/xmlbundler.go:66 | A marker line written from an indent without `<` is read back as that indent and name |
| XmlBundlerProps.BundleOneInclude | bundler/xmlbundler.go:11-46 | A file with one include of a fragment without includes bundles to the lines around it, with the markers and the indented fragment in place of the include |
| XmlBundlerProps.UnbundleOneInclude | bundler/xmlbundler.go:60-98 | One marker pair around an indented fragment unbundles to the root text with the include line back in place and the fragment under its name |
| XmlBundlerProps.OneIncludeRoundTrip | bundler/xmlbundler.go:11-98 | Bundling a file with one include and unbundling the result gives back the file and the included fragment under their names |
| Smoother.RoundHalfAway | objects/numbersmoother.go:19 | `math.Round` is within one half, rounding halves away from zero |
| Smoother.Pow10 | objects/numbersmoother.go:18 | A power of ten with a non-negative exponent is at least one |
| Smoother.TruncMod | objects/numbersmoother.go:120 | `math.Mod` keeps the dividend's sign and stays below the divisor in size |
| Smoother.SmoothRotRange | objects/numbersmoother.go:119-121 | For a rounded angle of at least -360 the result lies in [0, 360) and is the same angle |
| Smoother.SmoothRotExamples | objects/numbersmoother.go:119-121 | 370 gives 10, -89.83327 gives 270, -0.004 gives 0, 90 stays 90 |
| Smoother.Smooth | objects/numbersmoother.go:23-51 | A non-object comes back unchanged; an object keeps its keys, and only float values of the position, rotation and colour keys are rounded |
| Smoother.RoundListed | objects/numbersmoother.go:29-49 | Exactly the listed keys holding floats are rounded, all else is unchanged |
| Smoother.ThreeLoops | objects/numbersmoother.go:29-49 | The position, rotation and colour loops in turn give each key its own rule |
| Smoother.SmoothArbitrary | objects/numbersmoother.go:53-75 | Succeeds exactly on an object whose keys are among x, y, z with float values; the result has the same keys, each rounded |
| Smoother.SmoothAngle | objects/numbersmoother.go:111-113 | As `smoothArbitrary`, with the rotation rule |
| Smoother.RoundedXyz | objects/numbersmoother.go:63-69 | The rounded vector keeps the keys of the input |
| Smoother.SmoothedSnapPoint | objects/numbersmoother.go:86-100 | A smoothed snap point has exactly the Position and Rotation keys it had |
| Smoother.SameSizeSameKeys | objects/numbersmoother.go:70 | When one key set is within the other, equal sizes mean equal key sets, so the size check rejects every extra key |
| Smoother.SmoothFields | objects/numbersmoother.go:86-100 | Smoothing the two fields succeeds exactly when each present one is a well-formed vector |
| Smoother.SmoothSnapPoint | objects/numbersmoother.go:86-103 | One snap point smooths exactly when it is well formed and has no other key |
| Smoother.SmoothSnapPoints | objects/numbersmoother.go:78-108 | A non-list is an error; a list smooths exactly when every snap point is good, and then the result has the same length and order |
| Handler.RunBundle | handler/bundlehandler.go:75 | The handler's bundler is the Lua or the XML bundler, by kind |
| Handler.WhileReadingFromFile | handler/bundlehandler.go:55-90 | A non-string key or path value is an error; an inline value wins over the file; an empty bundle is a no-op, otherwise the action sets the handler's key to the bundled text |
| Handler.RunUnbundle | handler/bundlehandler.go:105-108 | The handler's unbundler, and on success the root is among the modules |
| Handler.SrcFileName | handler/bundlehandler.go:126-129 | A module file ends with the handler's extension, added only when missing |
| Handler.WriteModules | handler/bundlehandler.go:125-137 | Every module is written to its file, other files are kept, and nothing else is written |
| Handler.WrittenExactly | handler/bundlehandler.go:125-137 | When module names give distinct files, each module's file holds exactly that module |
| Handler.WhileWritingToFile | handler/bundlehandler.go:94-140 | A missing key is a no-op and a non-string an error; a root longer than 80 bytes goes to the file and the action sets the path key, otherwise the action sets the key; other modules go to the source writer, or nowhere when there is none |
| Objects.GuidOf | objects/objects.go:33-41 | Succeeds exactly when `GUID` is a string, giving that string |
| Objects.WithPathsEffect | objects/objects.go:43-46 | Each path key holding a string moves into its field and leaves the data; nothing else is added |
| Objects.TakePaths | objects/objects.go:44-46 | The three `tryParseIntoStr` calls compute the object with its paths taken out |
| Objects.ParseFromFile | objects/objects.go:26-49 | An unreadable file is an error; success needs a string `GUID` and takes the path keys out |
| Objects.ParseFromJSON | objects/objects.go:60-96 | A missing or non-string `GUID` and a non-array `ContainedObjects` are errors; on success `ContainedObjects` is gone and an object without it has no children |
| Objects.KeepNameCharsShape | objects/objects.go:203-213 | The filter keeps only `[a-zA-Z0-9_-]`, never lengthens, and leaves an all-valid label alone |
| Objects.TryGetNonEmptyStr | objects/objects.go:217-230 | Succeeds exactly when the key holds a non-empty string |
| Objects.GoodFileNameShape | objects/objects.go:197-215 | The name is the filtered Nickname, else the filtered Name, then `.` and the id; with neither it is the bare id; the id is `subObjDir` when set, else the GUID |
| Objects.WithScriptFile | objects/objects.go:99-109 | Without a script path the data is unchanged; a missing script file is an error |
| Objects.WithStateFile | objects/objects.go:110-116 | Without a state path the data is unchanged; otherwise `LuaScriptState` gets the file's contents |
| Objects.Rebundled | objects/objects.go:118-126 | Data without a non-empty string `LuaScript` is left alone |
| Objects.Print | objects/objects.go:98-140 | The recursive method computes exactly the print specification |
| Objects.ScriptStepEffect | objects/objects.go:144-162 | A string `LuaScript` is unbundled; longer than 80 bytes it goes to `<dir>/<name>.ttslua` and `LuaScript_path` replaces it, otherwise the unbundled text stays inline |
| Objects.StateStepEffect | objects/objects.go:163-174 | A `LuaScriptState` longer than 80 bytes goes to `<dir>/<name>.luascriptstate` and its path key replaces it; otherwise nothing changes |
| Objects.WriteSelf | objects/objects.go:192-194 | The object's data is written to `<dir>/<good name>.json` |
| Objects.MoveScript | objects/objects.go:144-162 | The method computes the script step |
| Objects.PrintToFile | objects/objects.go:142-195 | The recursive method computes exactly the print-to-file specification |
| Objects.PrintChildrenToFile | objects/objects.go:184-189 | The children are printed into the sub-directory in order |
| Objects.AddObj | objects/objects.go:241-253 | The object is appended, and an existing entry for its GUID is never overwritten |
| Objects.Base | objects/objects.go:310 | `path.Base` of a non-empty path is non-empty |
| Objects.ParseFiles | objects/objects.go:296-308 | Parsing files only adds objects and keeps the folder claims well formed |
| Objects.ParseFolders | objects/objects.go:309-317 | Sub-folders attach children to their claimers and add no roots |
| Objects.ParseFromFolder | objects/objects.go:289-319 | The method computes exactly the folder-parsing specification |
| Objects.PrintDb | objects/objects.go:255-265 | The loop prints the roots as the specification says |
| Objects.ParseAllObjectStates | objects/objects.go:276-287 | Parsing the root folder and then printing, exactly as specified |
| Objects.PrintObjectStates | objects/objects.go:333-346 | Each top-level object is parsed and written in order, or the first error is returned |
| ObjectsProps.KeepNameCharsConcat | objects/objects.go:213 | Filtering distributes over concatenation |
| ObjectsProps.KeepAllNameChars | objects/objects.go:213 | A label of valid characters is kept whole |
| ObjectsProps.KeepNoNameChars | objects/objects.go:213 | A run of invalid characters disappears |
| ObjectsProps.KeepTwoWords | objects/objects.go:213 | Two words with punctuation between and after them become the words joined |
| ObjectsProps.NicknameWords | objects/objects.go:205-214 | A nickname such as "Occult Invocation" gives "OccultInvocation.<id>" |
| ObjectsProps.NameFallback | objects/objects.go:205-214 | A missing, non-string or empty Nickname falls back to Name |
| ObjectsProps.BareIdentifier | objects/objects.go:209-211 | Without a usable Nickname or Name the file name is the bare id |
| ObjectsProps.SubDirIdentifier | objects/objects.go:198-201 | With a sub-directory, its name is the id |
| ObjectsProps.ParseChildrenInOrder | objects/objects.go:82-92 | Children are parsed one for one, in input order |
| ObjectsProps.ParseChildrenMismatch | objects/objects.go:83-86 | A child that is not an object makes parsing fail |
| ObjectsProps.ParseFromJSONChildren | objects/objects.go:77-94 | On success `subObj` has one parsed child per element of `ContainedObjects`, in order |
| ObjectsProps.ParseFromJSONMismatch | objects/objects.go:82-86 | A non-object element of `ContainedObjects` makes `parseFromJSON` fail |
| ObjectsProps.PrintChildrenInOrder | objects/objects.go:128-135 | Children print one for one, in `subObj` order |
| ObjectsProps.PrintContained | objects/objects.go:128-139 | With children, `ContainedObjects` holds each printed child in order; without, the key is not set |
| ObjectsProps.PrintPlain | objects/objects.go:98-140 | An object with no paths, script or children prints as its data |
| ObjectsProps.MissingScriptFileFails | objects/objects.go:99-103 | An unreadable script file makes `print` fail |
| ObjectsProps.PrintToFileGrows | objects/objects.go:142-195 | Printing to files only adds files and directories |
| ObjectsProps.ChildrenToFileGrows | objects/objects.go:184-189 | Printing the children only adds files and directories |
| ObjectsProps.PrintToFileSubDir | objects/objects.go:177-194 | With children, the node's file records `ContainedObjects_path`, that directory was created, and the node's name uses it |
| ObjectsProps.ScriptFileRoundTrip | objects/objects.go:144-156 | A long script written out is named by `LuaScript_path` in the node's file, and `parseFromFile` reads that path back with the GUID |
| ObjectsProps.JsonFiles | objects/objects.go:297-300 | Only `.json` files are kept |
| ObjectsProps.ParseFilesJsonOnly | objects/objects.go:296-300 | Non-JSON files are skipped |
| ObjectsProps.UnclaimedStaysUnclaimed | objects/objects.go:305-307 | A folder name no parsed file claims stays unclaimed |
| ObjectsProps.UnclaimedFolderFailsFrom | objects/objects.go:309-313 | An unclaimed folder makes the folder loop fail |
| ObjectsProps.UnclaimedFolderFails | objects/objects.go:309-313 | A folder no object claims makes `parseFromFolder` fail |
| ObjectsProps.ParseFilesKeepsFirst | objects/objects.go:247-251 | Parsing files never overwrites the first object seen for a GUID |
| ObjectsProps.ParseFolderKeepsFirst | objects/objects.go:289-319 | Parsing a folder never overwrites the first object seen for a GUID |
| ObjectsProps.ParseFoldersKeepsFirst | objects/objects.go:309-317 | The folder loop never overwrites the first object seen for a GUID |
| ObjectsProps.BaseOfJoin | objects/objects.go:310 | The base of `dir/name` is `name` |
| ObjectsProps.PrintRootsInOrder | objects/objects.go:255-265 | Roots print one for one, in order |
| Objects.PrintStates | objects/objects.go:333-346 | On success the written order gains exactly one name per object, after the names already written |
| ModKeys.PathKeyEnds | mod/reverse.go:57 | Every `Key_path` ends with `_path` |
| ModKeys.ExpectedStrPlain | mod/generate.go:15 | The string keys are distinct and none is a `_path` key |
| ModKeys.ExpectedObjPlain | mod/generate.go:17 | The object keys are distinct and none is a `_path` key |
| ModKeys.ExpectedObjArrPlain | mod/generate.go:19 | The object-list keys are distinct and none is a `_path` key |
| Reverse.StrStepEffect | mod/reverse.go:28-58 | An absent key is skipped and a non-string is an error; `LuaScript` is unbundled first and uses `.ttslua`, others `.luascriptstate`; under 80 bytes only the root name changes, otherwise the file gets the text, `Key_path` names it and `Key` is gone |
| Reverse.StrKeysNonString | mod/reverse.go:32-35 | Any listed key holding a non-string makes the loop fail |
| Reverse.WriteStrKeys | mod/reverse.go:27-59 | The string-key loop computes exactly its specification |
| Reverse.ObjStepEffect | mod/reverse.go:62-80 | The step fails exactly on a present non-object; a small object stays; a large one goes to `Key.json` with `Key_path` naming it; nothing else changes |
| Reverse.ObjKeysNonObject | mod/reverse.go:64-67 | Any listed key holding a non-object makes the loop fail |
| Reverse.WriteObjKeys | mod/reverse.go:61-82 | The object-key loop computes exactly its specification |
| Reverse.ArrStepEffect | mod/reverse.go:85-110 | A value that is not a list of objects is an error; `SnapPoints` must smooth; a short list is written back converted and smoothed; a long one goes to `Key.json` |
| Reverse.WriteArrKeys | mod/reverse.go:84-112 | The object-list loop succeeds exactly when its specification does, and then agrees with it |
| Reverse.StatesStepEffect | mod/reverse.go:114-125 | Without `ObjectStates` nothing changes; a non-list is an error; on success `ObjectStates` is replaced by an order with one name per object |
| Reverse.Write | mod/reverse.go:24-133 | `Write` succeeds exactly when its specification does, and then agrees with it |
| Reverse.NonStringFails | mod/reverse.go:27-35 | A listed string key holding a non-string makes `Write` fail |
| Reverse.StrKeysFrame | mod/reverse.go:27-59 | The string loop leaves every unlisted, non-path key alone |
| Reverse.NonObjectFails | mod/reverse.go:61-67 | A listed object key holding a non-object makes `Write` fail |
| Reverse.ConfigWrittenLast | mod/reverse.go:127-132 | `config.json` holds the map as finally left, without `ObjectStates`, and every other root file is kept |
| Reverse.RootKept | mod/reverse.go:27-59 | The string loop writes no root file |
| Reverse.RootKeptObj | mod/reverse.go:61-82 | The object loop writes no root file |
| Reverse.RootKeptArr | mod/reverse.go:84-112 | The object-list loop writes no root file |
| Generate.Put | mod/generate.go:154-180 | With `to` alone nothing changes; otherwise `to` gets what `fun` reads from the file named by `from` (or from `""`), `from` is gone, and no other key changes |
| Generate.TryPut | mod/generate.go:154-158 | A nil map is left alone, any other gets `Put` |
| Generate.PutKeys | mod/generate.go:83-93 | The `tryPut` loop computes the fold over the keys |
| Generate.PutAllKeeps | mod/generate.go:83-93 | A present plain key stays present through the loop |
| Generate.PutAllNoPath | mod/generate.go:83-93 | An absent `_path` key stays absent through the loop |
| Generate.PutAllFrame | mod/generate.go:83-93 | Keys neither listed nor `_path` keys are untouched |
| Generate.PutAllSwaps | mod/generate.go:83-93 | After the loop every listed key is present and its `_path` key is gone |
| Generate.Apply | mod/generate.go:102-106 | A no-op changes nothing; otherwise the action's key holds its value, the path key is gone unless it is the action's key, and other keys are untouched |
| Generate.Restore | mod/generate.go:82-93 | The three `tryPut` loops compute the restored map |
| Generate.RunHandler | mod/generate.go:98-106 | One handler's action applied, or its error |
| Generate.ApplyHandlers | mod/generate.go:95-119 | The Lua and then the XML handler applied, or the first error |
| Generate.Finish | mod/generate.go:121-141 | The order check, the object tree and the date agree with their specification whenever either succeeds |
| Generate.Generate | mod/generate.go:69-144 | `generate` succeeds exactly when its specification does, and then agrees with it |
| GenerateProps.ReadingSetsOwnKey | handler/bundlehandler.go:79-89 | A handler action either does nothing or sets the handler's own key |
| GenerateProps.StepKeeps | mod/generate.go:102-106 | A handler step keeps a restored key present and its `_path` key absent |
| GenerateProps.StepFrame | mod/generate.go:102-106 | A handler step leaves keys other than its own alone |
| GenerateProps.PutAllStaysSwapped | mod/generate.go:87-93 | Later `tryPut` loops keep an already-swapped key swapped |
| GenerateProps.PutAllSwapsOne | mod/generate.go:83-93 | The loop swaps each listed key |
| GenerateProps.RestoredSwapsStr | mod/generate.go:83-85 | After the loops each string key is present and its `_path` key gone |
| GenerateProps.RestoredSwapsObj | mod/generate.go:87-89 | After the loops each object key is present and its `_path` key gone |
| GenerateProps.RestoredSwapsArr | mod/generate.go:91-93 | After the loops each object-list key is present and its `_path` key gone |
| GenerateProps.OrderKeyUnlisted | mod/generate.go:13-26 | `ObjectStates_order` is not a listed key and not a `_path` key |
| GenerateProps.RestoredKeepsOrder | mod/generate.go:83-93 | The `tryPut` loops leave `ObjectStates_order` alone |
| GenerateProps.HandledKeepsOrder | mod/generate.go:95-119 | The handlers leave `ObjectStates_order` alone |
| GenerateProps.HandledKeeps | mod/generate.go:95-119 | The handlers keep a restored key present and its `_path` key absent |
| GenerateProps.FinishedKeeps | mod/generate.go:121-141 | The last steps keep a restored key other than the order present, and its `_path` key absent |
| GenerateProps.GenerateKeepsSwapped | mod/generate.go:95-141 | Everything after the loops keeps a restored key restored |
| GenerateProps.GenerateSwapsStr | mod/generate.go:69-144 | A successful `generate` leaves every string key present and no `Key_path` reference |
| GenerateProps.GenerateSwapsObj | mod/generate.go:69-144 | A successful `generate` leaves every object key present and no `Key_path` reference |
| GenerateProps.GenerateSwapsArr | mod/generate.go:69-144 | A successful `generate` leaves every object-list key present and no `Key_path` reference |
| GenerateProps.GenerateNeedsOrder | mod/generate.go:121-128 | With object files present, a missing or unreadable `ObjectStates_order` makes `generate` fail |
| GenerateProps.FinishedStamps | mod/generate.go:121-141 | The last steps set `ObjectStates` to the object list read, `Date` and `EpochTime` to the clock, and drop the order exactly when it was readable |
| GenerateProps.GenerateStamps | mod/generate.go:130-141 | A successful `generate` read the object tree and stamped `ObjectStates`, `Date` and `EpochTime` |
| GenerateProps.GenerateObjectsFail | mod/generate.go:130-133 | An error reading the object tree is an error of `generate` |
| RoundTrip.StrKeyRoundTrip | mod/reverse.go:46-58 | A string key `Write` moved to a file (or left alone) is read back by `tryPut` with the same value, and no `_path` key is left |
| RoundTrip.ObjKeyRoundTrip | mod/reverse.go:69-80 | An object key `Write` moved to `Key.json` (or left alone) is read back with the same object |
| RoundTrip.ArrKeyRoundTrip | mod/reverse.go:98-110 | An object-list key comes back as the converted list (smoothed for `SnapPoints`) that `Write` produced |

## Left out

- Real I/O: files, directories and the clock are maps and parameters.
  - `Date` and `EpochTime` are the parameters `date` and `epoch`.
  - The text, JSON and settings readers are maps.
  - A Lua or XML reader maps a file to the text its `EncodeFromFile` returns.
  - Writers never fail, so no write error path is modelled.
- Aliasing: objects are values. The source shares `*objConfig` pointers between `db.all`, `db.root` and the parents' `subObj` lists. Here each walk returns new values, and the parent is attached by the caller.
- Error texts: every error branch is modelled, but a message that formats a Go value with `%v` or `%T` is shortened to fixed text.
- Reverse.Write, Reverse.WriteArrKeys, Generate.Generate, Generate.Finish: these methods agree with their specifications on success and on whether they succeed, but do not pin the text of every error. Some errors come from collaborators whose messages are not modelled.
- `fmt.Sprint` is the parameter `size` of `Reverse.Write`. The model says nothing about how long a printed map is, only that the threshold is compared as in the source.
- Floating point: `float64` values are exact reals. `math.Round`, `math.Pow` and `math.Mod` follow their definitions on reals. Rounding error is not modelled.
- Fuel bounds:
  - `fuel` bounds the nesting of Lua requires, XML includes and `ReplaceRequire`, and `depth` bounds object directories.
  - The source has no bound, so a require or include cycle never terminates there. Here, running out of fuel is an error.
- Nested objects:
  - The source calls a five-argument `ParseAllObjectStates` with the object order, but objects/objects.go defines it with three arguments and no order.
  - The model follows objects/objects.go, so `generate` checks and removes the order but does not use it.
  - `PrintObjectStates` returns only an error in objects/objects.go, while mod/reverse.go expects an order. The model returns the written file name stems as that order.
- Thresholds: a script or state of exactly 80 bytes goes to a file in `Reverser.Write` (`< 80` keeps it inline) and stays inline in `printToFile` (`> 80` moves it). Both are modelled as written.
- Short root scripts: in `Reverser.Write` a short `LuaScript` stays exactly as it was, still bundled, because the unbundled text is only used for the length test and the file.
- `printToFile` does not record a `ContainedObjects_order` in this version of the source, and the model records none either.
- `db.addObj` logs a duplicate GUID; the log line is not modelled, only the fact that the first entry is kept.
- `path.Base` and `path.Join` are modelled for the relative, slash-separated paths the tree uses; cleaning of `..` and of repeated slashes is not.
- `getAllReqValues` can only fail if a matched `require` fails to match again; the model proves this cannot happen, so that error branch has no counterpart.
- `ReplaceRequire` fails when the split pieces do not number one more than the matches. The model proves the count always holds, so that branch never fires.
- `UnbundleAll` sets the package variable `Rootname` as a side effect. It is a parameter and a returned value here. `Unbundle`'s "Rootname not found" branch cannot fire once `UnbundleAll` succeeds.
- `WhileWritingToFile` visits the non-root modules in Go's unspecified map order. The model writes them in an arbitrary order and proves the written files do not depend on it when module names give distinct files.
- LuaBundler.Unbundle, LuaBundler.UnbundleAll: the round trip with `Bundle` is proved only for module maps with at least one module whose names hold no `"` or `(` and whose bodies are non-empty, do not start with whitespace, do not end in a space or line break, and hold neither `end)` nor `__bundle_require("`. For other bodies the lazy block pattern can end a module early or pick another root name.
- XmlBundler.UnbundleAllXML: the round trip with `BundleXML` is proved for one include of a fragment without includes or markers; nested and repeated includes are not.
- CreateDir is taken to create the suggested directory; its `_N` retry names and its failure after 100 tries are not modelled.
- `ReplaceRequire` logs each require it matches with `log.Printf` (file/luaops.go:75); the log line is not modelled.
- `AnalyzeBundle`, `Mod.GenerateFromConfig`, `generateOnlyObjStates`, `Mod.Print`, `writeJSON` and `EncodeToFile` are I/O wrappers and are not modelled.
- `smoothPos` and `roundFloat` are modelled as concrete rounding on reals, with no properties beyond the rounding bounds.
