# Kotlin compiler policy helpers, modelled in Dafny

This project models four small, pure decision procedures from the Kotlin toolchain and proves their properties.

1. **JSR-305 report-level policy** (`Jsr305State`). A `ReportLevel` (`ignore`/`warn`/`strict`) has a string codec. A `Jsr305State` triple holds a global level, an optional level for annotations under migration, and a level per annotation name. `fromArgs` builds the triple as a left fold over command-line tokens (`@name:level`, `under-migration:level`, a bare level) and skips malformed tokens silently. It hands out the `DISABLED` singleton itself when the result equals it. `description` serialises a state back into tokens.
2. **Low-priority stdlib-jre7/8 overloads** (`isLowPriorityFromStdlibJre7Or8`). This is a total predicate over a callable. It looks at the callable's package, name, extension receiver, value parameters and `@SinceKotlin` argument, and picks out the 1.1 extensions of `kotlin`, `kotlin.text`, `kotlin.collections` and `kotlin.streams`.
3. **Reformat inspection**. The formatting model that records requested changes in a set without applying them, and `isEmptyLineReformat`, the test that lets a whitespace change through when it only alters blank lines.
4. **Test filter** (`KotlinProjectTest.getCandidateClassFiles`). It maps `pkg.Class[.method]` include patterns to `pkg/Class.class` paths.

Layout:

- `option.dfy` holds `Opt`, Kotlin's nullable values.
- `kotlin_text.dfy` holds `KotlinText`: `startsWith`, `count`, `lastIndexOf`, `substringAfterLast`, `substringBeforeLast`, `replace` and `split`, with Kotlin semantics.
- `linked_map.dfy` holds `LinkedMap`. It models the insertion-ordered `mutableMapOf` as a list of entries.
- `jsr305_state.dfy` holds `Jsr305`, and `jsr305_properties.dfy` holds `Jsr305Properties`.
- `stdlib_priority.dfy` holds `StdlibJre7Or8`.
- `reformat.dfy` holds `Reformat`.
- `test_filter.dfy` holds `KotlinProjectTest`.

Modelling choices:

- **User map.** `Jsr305State.user` is a `LinkedHashMap`. Its iteration order fixes the order of `description`, so it is modelled as an entry list with distinct keys (`Jsr305.Valid`). `m[k] = v` on an existing key keeps that key's position. The data-class `==` compares this map as a map (`Jsr305.ValueEquals`).
- **Object identity.** `disabled()` is the reference test `this === DISABLED`. `fromArgs` therefore returns a `Jsr305Instance`, which is either `DisabledInstance` (the singleton) or `Fresh(state)`. A state built directly with the same fields as `DISABLED` is a `Fresh` value, and `disabled()` is false for it, as in the code. On every `fromArgs` result the reference test agrees with value equality to `DISABLED` (`Jsr305.FromArgs`, `Jsr305.ValueEqualsDisabled`).
- **`split(":")`.** Kotlin's `split` keeps empty parts and has no limit. `"@a:b:warn"` therefore has three parts and is skipped. `under-migration` is a prefix test on the whole token, so `under-migrationX:warn` also sets the migration level, while a bare `under-migration` is skipped.
- **Round trip.** Parsing `description` gives the state back only when no annotation name contains `:`. `Jsr305Properties.ColonInNameIsSkipped` shows why the condition is needed.
- **Descriptors.** Compiler descriptors become records. An FqName is a list of segments. The compiler's `FqName`, `KotlinBuiltIns` and `LanguageVersion` are not part of this model. The constants are taken to be:
  - `kotlin`, `kotlin.text`, `kotlin.collections` for the built-in package names;
  - `kotlin.collections.Map` and `kotlin.collections.MutableMap` for `FQ_NAMES.map` and `FQ_NAMES.mutableMap`;
  - `"1.1"` for the 1.1 version string.

  `FqName.startsWith(name)` is read as "the first segment is `name`". The root FqName's short name is left open: `hasFqName` is only asked about the four non-root constants, so that case is never reached, and the model fills it with a placeholder. `isStringOrNullableString` is a flag on the type record.

## Model

| member | source | states |
|---|---|---|
| `Jsr305.FindByDescription` | core/util.runtime/src/org/jetbrains/kotlin/utils/Jsr305State.kt:19-27 | returns a level only when the (nullable) argument is exactly that level's description, returns every level when given its own description, and returns null for a null argument |
| `Jsr305.Classify` | core/util.runtime/src/org/jetbrains/kotlin/utils/Jsr305State.kt:69-83 | the `forEach` dispatch: a user level comes only from an `@` token, a migration level only from a token that starts with `under-migration` and not `@`, and a global level only from a token that is exactly a level's description; the full shape of each is in `Jsr305.ClassifySound` |
| `Jsr305.ClassifySound` | core/util.runtime/src/org/jetbrains/kotlin/utils/Jsr305State.kt:69-83 | an accepted `@` token is exactly `@name:level` with no ':' in the name; an accepted migration token starts with `under-migration`, not `@`, and has one ':' before its level; an accepted bare token is a level's description; an `@` or `under-migration` token without exactly one ':' is skipped |
| `Jsr305.ClassifyUserToken` | core/util.runtime/src/org/jetbrains/kotlin/utils/Jsr305State.kt:70-74 | an `@` token is either skipped or read as `@name:level` with a colon-free name, and is skipped whenever it does not hold exactly one ':' |
| `Jsr305.ClassifyAcceptsPrefixedMigrationToken` | core/util.runtime/src/org/jetbrains/kotlin/utils/Jsr305State.kt:75-79 | conversely, any token that starts with `under-migration` (such as `under-migrationX:warn`), not with `@`, and holds a single ':' followed by a level's description sets that migration level |
| `Jsr305.ClassifyMigrationToken` | core/util.runtime/src/org/jetbrains/kotlin/utils/Jsr305State.kt:75-79 | an `under-migration` token (not starting with `@`) is either skipped or sets the level written after its only ':', and is skipped whenever it does not hold exactly one ':' |
| `Jsr305.Apply` | core/util.runtime/src/org/jetbrains/kotlin/utils/Jsr305State.kt:70-82 | recording a token keeps the annotation names distinct |
| `Jsr305.Fold` | core/util.runtime/src/org/jetbrains/kotlin/utils/Jsr305State.kt:64-84 | the fold over the tokens keeps the user levels a map |
| `Jsr305.Parse` | core/util.runtime/src/org/jetbrains/kotlin/utils/Jsr305State.kt:63-68 | the parsed triple keeps the user levels a map, and a null argument array parses like an empty one, to (WARN, null, {}) |
| `Jsr305.FromArgs` | core/util.runtime/src/org/jetbrains/kotlin/utils/Jsr305State.kt:63-88 | normalisation never changes the parsed value; the DISABLED singleton is returned exactly when the parsed triple is (IGNORE, IGNORE, {}) |
| `Jsr305.ValueEquals` | core/util.runtime/src/org/jetbrains/kotlin/utils/Jsr305State.kt:33-36 | the data-class `==` compares the three fields, the user levels as a map: equal states are value-equal, and `Jsr305.ValueEqualsDisabled` gives its meaning against `DISABLED` |
| `Jsr305.ValueEqualsIsEquivalence` | core/util.runtime/src/org/jetbrains/kotlin/utils/Jsr305State.kt:33-36 | the data-class `==` is reflexive, symmetric and transitive |
| `Jsr305.Jsr305Instance.Disabled` | core/util.runtime/src/org/jetbrains/kotlin/utils/Jsr305State.kt:51 | `disabled()` is the reference test against the singleton, so a disabled instance always carries the fields (IGNORE, IGNORE, {}) |
| `Jsr305.ValueEqualsDisabled` | core/util.runtime/src/org/jetbrains/kotlin/utils/Jsr305State.kt:86-87 | data-class equality with DISABLED is field equality with an empty user map |
| `Jsr305.Description` | core/util.runtime/src/org/jetbrains/kotlin/utils/Jsr305State.kt:38-49 | element 0 is the global level; next is `under-migration:<level>` iff there is a migration level; then one `@name:level` per user entry in order; length 1 + (0 or 1) + number of entries |
| `Jsr305.LevelTokens` | core/util.runtime/src/org/jetbrains/kotlin/utils/Jsr305State.kt:40-42 | the global token comes first, and the migration token follows iff a migration level is present |
| `Jsr305.UserTokens` | core/util.runtime/src/org/jetbrains/kotlin/utils/Jsr305State.kt:44-46 | one `@name:level` token per user entry, in iteration order |
| `Jsr305Properties.FoldConcat` | core/util.runtime/src/org/jetbrains/kotlin/utils/Jsr305State.kt:68-84 | folding two token lists in turn is folding their concatenation |
| `Jsr305Properties.StepChangesOnlyItsField` | core/util.runtime/src/org/jetbrains/kotlin/utils/Jsr305State.kt:69-83 | an `@name` token sets only that name's level; a migration token sets only the migration level; a bare level sets only the global level; a skipped token changes nothing |
| `Jsr305Properties.FoldIsLastWriterWins` | core/util.runtime/src/org/jetbrains/kotlin/utils/Jsr305State.kt:68-84 | after the fold, each field holds the level of the last accepted token of its kind, or its previous value |
| `Jsr305Properties.FromArgsIsLastWriterWins` | core/util.runtime/src/org/jetbrains/kotlin/utils/Jsr305State.kt:63-88 | `fromArgs`: the global level is the last bare level or WARN, the migration level is the last migration level or null, and each name's level is the last one given for it |
| `Jsr305Properties.FromArgsDefault` | core/util.runtime/src/org/jetbrains/kotlin/utils/Jsr305State.kt:55-68 | null and empty arguments both give a fresh state equal to DEFAULT |
| `Jsr305Properties.SkippedTokenIsIgnored` | core/util.runtime/src/org/jetbrains/kotlin/utils/Jsr305State.kt:70-81 | removing a malformed token from anywhere in the arguments does not change the result |
| `Jsr305Properties.ClassifyAcceptsLevel` | core/util.runtime/src/org/jetbrains/kotlin/utils/Jsr305State.kt:80-82 | every level's description is accepted as a global level |
| `Jsr305Properties.DescriptionShape` | core/util.runtime/src/org/jetbrains/kotlin/utils/Jsr305State.kt:19-23 | no level's description holds ':' or starts with `@`, and each is shorter than `under-migration`, so a bare level never takes another branch |
| `Jsr305Properties.ClassifyAcceptsMigrationToken` | core/util.runtime/src/org/jetbrains/kotlin/utils/Jsr305State.kt:75-79 | `under-migration:<level>` is accepted as that migration level |
| `Jsr305Properties.ClassifyAcceptsUserToken` | core/util.runtime/src/org/jetbrains/kotlin/utils/Jsr305State.kt:70-74 | `@name:<level>` with no ':' in the name is accepted for that name and level |
| `Jsr305Properties.ColonInNameIsSkipped` | core/util.runtime/src/org/jetbrains/kotlin/utils/Jsr305State.kt:71 | an `@` token whose name holds ':' splits into more than two parts and is skipped |
| `Jsr305Properties.UserTokenShape` | core/util.runtime/src/org/jetbrains/kotlin/utils/Jsr305State.kt:45 | a `@name:level` token starts with `@` and holds one ':' more than the name |
| `Jsr305Properties.FoldUserTokens` | core/util.runtime/src/org/jetbrains/kotlin/utils/Jsr305State.kt:44-46 | parsing the user tokens of distinct, colon-free names rebuilds those entries in the same order |
| `Jsr305Properties.FoldLevelTokens` | core/util.runtime/src/org/jetbrains/kotlin/utils/Jsr305State.kt:40-42 | parsing the leading tokens of a description restores the global and migration levels |
| `Jsr305Properties.DescriptionRoundTrip` | core/util.runtime/src/org/jetbrains/kotlin/utils/Jsr305State.kt:38-88 | when no name holds ':', `fromArgs(description)` gives back the state itself, and is the DISABLED singleton exactly for the disabled state |
| `Jsr305Properties.FoldPair` | core/util.runtime/src/org/jetbrains/kotlin/utils/Jsr305State.kt:68 | folding two tokens applies the first, then the second |
| `Jsr305Properties.IgnoreEverywhereIsDisabled` | core/util.runtime/src/org/jetbrains/kotlin/utils/Jsr305State.kt:58-87 | `fromArgs(["ignore", "under-migration:ignore"])` is the DISABLED singleton |
| `Jsr305Properties.StrictIsNotNormalised` | core/util.runtime/src/org/jetbrains/kotlin/utils/Jsr305State.kt:61-87 | `fromArgs(["strict", "under-migration:strict"])` is a fresh object equal to STRICT, not a singleton |
| `Jsr305Properties.ParsedStrictIsFresh` | core/util.runtime/src/org/jetbrains/kotlin/utils/Jsr305State.kt:86-87 | any arguments that parse to STRICT's fields come back as a fresh object: only `DISABLED` is normalised |
| `Jsr305Properties.BogusTokenIsSkipped` | core/util.runtime/src/org/jetbrains/kotlin/utils/Jsr305State.kt:80-82 | an unknown bare token is skipped, and a later bare level still sets the global level |
| `Jsr305Properties.UnknownLevelIsSkipped` | core/util.runtime/src/org/jetbrains/kotlin/utils/Jsr305State.kt:70-77 | `@name:x` and `under-migration:x` with an unknown level `x` are skipped |
| `Jsr305Properties.BareMigrationTokenIsSkipped` | core/util.runtime/src/org/jetbrains/kotlin/utils/Jsr305State.kt:75-76 | a bare `under-migration` token is skipped rather than read as a global level |
| `LinkedMap.Get` | core/util.runtime/src/org/jetbrains/kotlin/utils/Jsr305State.kt:36 | `m[k]` is null exactly when `k` is absent, and otherwise reads a value stored under `k` |
| `LinkedMap.Put` | core/util.runtime/src/org/jetbrains/kotlin/utils/Jsr305State.kt:73 | `m[k] = v` leaves the entry `k` → `v` in the map and grows it by at most one entry |
| `LinkedMap.PutExistingKeepsKeys` | core/util.runtime/src/org/jetbrains/kotlin/utils/Jsr305State.kt:66-73 | putting a key that is already present keeps the size and every key at its position, so the iteration order that `description` follows is unchanged |
| `LinkedMap.PutGet` | core/util.runtime/src/org/jetbrains/kotlin/utils/Jsr305State.kt:73 | after `userDefined[name] = state`, that name reads back `state` and every other name is unchanged |
| `LinkedMap.PutNewKey` | core/util.runtime/src/org/jetbrains/kotlin/utils/Jsr305State.kt:66 | a new name is appended after the existing ones (insertion order) |
| `LinkedMap.PutDistinct` | core/util.runtime/src/org/jetbrains/kotlin/utils/Jsr305State.kt:66 | putting a key keeps the keys distinct |
| `KotlinText.StartsWith` | core/util.runtime/src/org/jetbrains/kotlin/utils/Jsr305State.kt:70 | `item.startsWith(prefix)`: the prefix fits in the string and is its first characters; `Jsr305.Classify` relies on it for its branch facts |
| `KotlinText.Split` | core/util.runtime/src/org/jetbrains/kotlin/utils/Jsr305State.kt:71 | `split(":")` always yields at least one part, even for the empty string |
| `KotlinText.SplitSpec` | core/util.runtime/src/org/jetbrains/kotlin/utils/Jsr305State.kt:71 | `split(":")` parts contain no ':' and join back to the input |
| `KotlinText.SplitCount` | core/util.runtime/src/org/jetbrains/kotlin/utils/Jsr305State.kt:76 | `split(":")` yields one more part than there are ':' characters |
| `KotlinText.SplitJoin` | core/util.runtime/src/org/jetbrains/kotlin/utils/Jsr305State.kt:71 | splitting the join of colon-free parts yields the parts back |
| `KotlinText.SplitAtSingleDelimiter` | core/util.runtime/src/org/jetbrains/kotlin/utils/Jsr305State.kt:76 | a token with a single ':' splits into what comes before and after it |
| `KotlinText.SplitPair` | core/util.runtime/src/org/jetbrains/kotlin/utils/Jsr305State.kt:71 | a token that splits into exactly two parts is the first part, the delimiter, then the second, and neither part holds the delimiter |
| `StdlibJre7Or8.IsLowPriorityFromStdlibJre7Or8` | compiler/resolution/src/org/jetbrains/kotlin/resolve/calls/util/isFromStdlibJre7Or8.kt:46-82 | true only for a package fragment under `kotlin`, with a resolved receiver, in one of the four exact packages, carrying `@SinceKotlin("1.1")`; and true iff one of the four rules (`use` on a type parameter with a single AutoCloseable bound; `get(String)` on MatchGroupCollection; `getOrDefault` or two-argument `remove` on Map or MutableMap; any extension in `kotlin.streams`) holds together with that annotation |
| `StdlibJre7Or8.ShortName` | compiler/resolution/src/org/jetbrains/kotlin/resolve/calls/util/isFromStdlibJre7Or8.kt:85 | `FqName.shortName()`: the last segment, which `StdlibJre7Or8.HasFqNameIsFullNameMatch` ties to full-name equality |
| `StdlibJre7Or8.StartsWithSegment` | compiler/resolution/src/org/jetbrains/kotlin/resolve/calls/util/isFromStdlibJre7Or8.kt:49 | `packageFqName.startsWith(kotlin)`: the first segment is `kotlin`, so deeper `kotlin.*` packages pass it and fail later, as `StdlibJre7Or8.OtherPackagesAreNotLowPriority` shows |
| `StdlibJre7Or8.HasFqName` | compiler/resolution/src/org/jetbrains/kotlin/resolve/calls/util/isFromStdlibJre7Or8.kt:84-85 | `hasFqName` holds only for a classifier whose full name is the given one and whose short name is that name's last segment |
| `StdlibJre7Or8.ShapeMatches` | compiler/resolution/src/org/jetbrains/kotlin/resolve/calls/util/isFromStdlibJre7Or8.kt:53-76 | the `when (packageFqName)` dispatch accepts only the four listed packages, and accepts every callable in `kotlin.streams` |
| `StdlibJre7Or8.SinceKotlinVersion` | compiler/resolution/src/org/jetbrains/kotlin/resolve/calls/util/isFromStdlibJre7Or8.kt:78-79 | a version is read only from a `@SinceKotlin` whose arguments are exactly one string constant, and such an annotation always yields its string |
| `StdlibJre7Or8.HasFqNameIsFullNameMatch` | compiler/resolution/src/org/jetbrains/kotlin/resolve/calls/util/isFromStdlibJre7Or8.kt:84-85 | `hasFqName` implies the full names are equal, and equals full-name equality for descriptors whose short name is their last segment |
| `StdlibJre7Or8.HasFqNameChecksShortName` | compiler/resolution/src/org/jetbrains/kotlin/resolve/calls/util/isFromStdlibJre7Or8.kt:84-85 | a descriptor with the right full name but a different short name fails `hasFqName` |
| `StdlibJre7Or8.OtherVersionsAreNotLowPriority` | compiler/resolution/src/org/jetbrains/kotlin/resolve/calls/util/isFromStdlibJre7Or8.kt:78-81 | a missing `@SinceKotlin`, or one with any version other than "1.1", gives false |
| `StdlibJre7Or8.StreamsShapeIsFree` | compiler/resolution/src/org/jetbrains/kotlin/resolve/calls/util/isFromStdlibJre7Or8.kt:72-74 | in `kotlin.streams` the result does not depend on the name or the value parameters |
| `StdlibJre7Or8.OtherPackagesAreNotLowPriority` | compiler/resolution/src/org/jetbrains/kotlin/resolve/calls/util/isFromStdlibJre7Or8.kt:47-75 | any package other than the four, deeper `kotlin.*` ones included, and any non-package container give false |
| `StdlibJre7Or8.UseScenario` | compiler/resolution/src/org/jetbrains/kotlin/resolve/calls/util/isFromStdlibJre7Or8.kt:54-60 | `T.use` with `T : AutoCloseable` and `@SinceKotlin("1.1")` is low priority in `kotlin` and not in an unrelated package |
| `StdlibJre7Or8.GetOrDefaultScenario` | compiler/resolution/src/org/jetbrains/kotlin/resolve/calls/util/isFromStdlibJre7Or8.kt:67-71 | `Map.getOrDefault` in `kotlin.collections` is low priority with version "1.1" and not with any other version |
| `Reformat.RequestedChanges` | idea/src/org/jetbrains/kotlin/idea/inspections/ReformatInspection.kt:62-64 | `requestedChanges`: the set of changes recorded so far, which `Reformat.ReplayCollectsAskedFor` pins to exactly the changes asked for |
| `Reformat.Record` | idea/src/org/jetbrains/kotlin/idea/inspections/ReformatInspection.kt:74-79 | `changes.add(change)`: the set gains exactly that change and loses nothing |
| `Reformat.ShiftIndent` | idea/src/org/jetbrains/kotlin/idea/inspections/ReformatInspection.kt:73-76 | returns its range unchanged; the recorded set gains exactly the shift-indent change and loses nothing |
| `Reformat.ReplaceWhiteSpaceIn` | idea/src/org/jetbrains/kotlin/idea/inspections/ReformatInspection.kt:78-81 | returns its range unchanged; the recorded set gains exactly the replace-whitespace change and loses nothing |
| `Reformat.CommitChanges` | idea/src/org/jetbrains/kotlin/idea/inspections/ReformatInspection.kt:66-68 | leaves the requested changes as they were |
| `Reformat.ReplayCollectsAskedFor` | idea/src/org/jetbrains/kotlin/idea/inspections/ReformatInspection.kt:62-81 | after any sequence of model calls, the requested changes are the earlier ones plus exactly the changes the recording calls asked for |
| `Reformat.RecordTwiceIsRecordOnce` | idea/src/org/jetbrains/kotlin/idea/inspections/ReformatInspection.kt:74-79 | recording the same change twice is recording it once |
| `Reformat.ReplayOrderIrrelevant` | idea/src/org/jetbrains/kotlin/idea/inspections/ReformatInspection.kt:62-64 | two call sequences with the same calls, in any order and with any repetitions, leave the same set |
| `Reformat.CommitIsTransparent` | idea/src/org/jetbrains/kotlin/idea/inspections/ReformatInspection.kt:66-68 | a commit anywhere in a sequence of calls changes nothing |
| `Reformat.IsEmptyLineReformat` | idea/src/org/jetbrains/kotlin/idea/inspections/ReformatInspection.kt:115-123 | false for every shift-indent change; true only with equal line-break counts; without line breaks it is string equality; when true, both strings end in the same text after their last line break |
| `Reformat.SameLinesAndIndentIsEquivalence` | idea/src/org/jetbrains/kotlin/idea/inspections/ReformatInspection.kt:121-122 | the test is reflexive, symmetric and transitive in the two whitespace strings |
| `Reformat.BlankLineChangeIsEmptyLineReformat` | idea/src/org/jetbrains/kotlin/idea/inspections/ReformatInspection.kt:118-122 | changing only what precedes the last line break, keeping the number of line breaks, is accepted |
| `Reformat.IndentChangeIsReported` | idea/src/org/jetbrains/kotlin/idea/inspections/ReformatInspection.kt:121-122 | a different text after the last line break is never accepted |
| `KotlinText.Count` | idea/src/org/jetbrains/kotlin/idea/inspections/ReformatInspection.kt:121 | the count is zero exactly when the character does not occur |
| `KotlinText.SubstringAfterLast` | idea/src/org/jetbrains/kotlin/idea/inspections/ReformatInspection.kt:122 | the result is the longest suffix free of the delimiter: the whole string when the delimiter is missing, otherwise preceded by the delimiter |
| `KotlinText.SubstringAfterLastOfSuffix` | idea/src/org/jetbrains/kotlin/idea/inspections/ReformatInspection.kt:122 | for `p + "\n" + x` with `x` free of line breaks, the text after the last one is `x` and the text before it is `p` |
| `KotlinText.SubstringBeforeLast` | buildSrc/src/main/kotlin/tasks.kt:19 | the whole string when the delimiter is missing; otherwise the string is the result, the delimiter, then the text after the last delimiter |
| `KotlinText.ReplaceChar` | buildSrc/src/main/kotlin/tasks.kt:23 | same length; every '.' becomes '/', every other character is kept, and no '.' remains |
| `KotlinText.ReplaceCharInverse` | buildSrc/src/main/kotlin/tasks.kt:23 | replacing '.' by '/' is undone by replacing '/' by '.' when the input had no '/' |
| `KotlinProjectTest.ClassName` | buildSrc/src/main/kotlin/tasks.kt:17-21 | the class name is the pattern, or the pattern minus `.<last segment>` exactly when that segment is non-empty and starts lower-case; a pattern without '.' is its own class name |
| `KotlinProjectTest.ClassFilePath` | buildSrc/src/main/kotlin/tasks.kt:23 | the path is as long as the class name plus `.class`; its shape is in `KotlinProjectTest.ClassFilePathShape` |
| `KotlinProjectTest.ClassFilePathShape` | buildSrc/src/main/kotlin/tasks.kt:23 | the path is the class name's length plus `.class`, ends in `.class`, and has no '.' before that suffix |
| `KotlinProjectTest.GetCandidateClassFiles` | buildSrc/src/main/kotlin/tasks.kt:11-24 | the default candidates iff both pattern sets are empty; otherwise the set of paths is exactly the paths of the patterns |
| `KotlinProjectTest.ClassFilePathRecoversClassName` | buildSrc/src/main/kotlin/tasks.kt:23 | dropping `.class` and turning '/' back into '.' recovers the class name, when it has no '/' |
| `KotlinProjectTest.MethodPatternSharesClassFile` | buildSrc/src/main/kotlin/tasks.kt:17-23 | `Class.method` maps to the class name `Class`, and, when the last segment of `Class` does not start lower-case, to the same file as `Class` |
| `KotlinProjectTest.ClassPatternIsKept` | buildSrc/src/main/kotlin/tasks.kt:17-21 | a pattern whose last segment starts upper-case is kept whole as the class name |
| `KotlinProjectTest.PatternsCollapseIntoOneFile` | buildSrc/src/main/kotlin/tasks.kt:16-24 | `a.B.foo` and `a.B` select the single path of `a.B` |
| `KotlinProjectTest.SameFileCollapses` | buildSrc/src/main/kotlin/tasks.kt:16-24 | two patterns that select the same class file contribute a single path |

## Left out

- The lazy memoisation of `description` (Jsr305State.kt:38). `Jsr305.Description` is a pure function, which gives the same value.
- The object identity of directly constructed states. Only `fromArgs` results carry identity, as `DisabledInstance`/`Fresh`. `DEFAULT` and `STRICT` are plain values.
- The `ReportLevel.isWarning`/`isIgnore` predicates. They are modelled as `IsWarning`/`IsIgnore`, but each is the comparison itself, so they carry no contract of their own.
- The compiler's descriptor and type machinery: `KotlinBuiltIns`, `LanguageVersion`, type constructors and `getSinceKotlinAnnotation`. It is replaced by the `Callable`/`Classifier`/`KotlinType` records. `isStringOrNullableString` is a flag on the type record and is not computed.
- `StdlibJre7Or8.HasFqNameIsFullNameMatch`: covers the descriptors' own fqName/short-name consistency only as a hypothesis, because the compiler's `fqNameSafe` is not part of this model.
- IDE plumbing in ReformatInspection.kt: `collectFormattingChanges` (user-data toggling and `CodeStyleManager.reformat`), the PSI lookups and `ProblemDescriptorImpl` construction in `checkFile`, and `ReformatQuickFix`. They need a PSI tree and an IDE. The document model and root block of `CollectChangesWithoutApplyModel` are left out too.
- Gradle I/O in tasks.kt: the file-tree construction from `testClassesDirs`, `projectTest`'s JVM and environment configuration, and `getOrCreateTask`.
- `KotlinProjectTest.IsLowerCase`: `Char.isLowerCase` is Unicode-aware; the model accepts only ASCII `a`–`z`.
