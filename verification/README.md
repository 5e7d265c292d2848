# Verification of makeDeps and privacyout

Two programs of the Self repository are modelled here and proved correct, or proved correct exactly
where they are.

**makeDeps** reads a database of lines "file includes file", computes for every outer file (`.cpp`,
`.c`, `.s`, `.S`) the closure of its includes by a marked depth-first search, counts how many outer
files need each header, moves headers at or above a threshold to one grand include file, and writes an
include file per outer file, the grand include file and a makefile. Given an old and a new database it
rewrites only what changed. The platform is the Linux one (lines 317-349 of the source).

- `IncludeGraph` says what a graph, a walk and an include order are; nothing in it knows the program.
- `IncludeWalk` gives the search as functions on the three flags of every file, the marks, the list
  being filled and the reports. `CycleTrace` and `WalkProofs` prove what its steps keep, `Closures`
  what it computes, and `Unfolding` that it lists files in the order in which includes written out without
  any flag first mention them.
- `IncludeDb` reads entries one by one, and defines apart from that what a list of entries stands
  for; `IncludeDbProofs` proves the two equal, and `Reading` spells both out in the words of the lines. `Planning` holds the second pass of the computation
  with its counts, `Computing` the plan of a database, `Guarantees` what the plan promises in terms of
  the graph.
- `Outputs` says what is written and proves what an outer file sees of it and what make finds there.
  `Incremental` compares the incremental run with the full one. `Compiling` follows the includes through
  the text that is written, `Refinement` compares whole runs, and `Witnesses` gives databases on which
  something goes wrong. `Products` states every file of a run word by word, from the graph alone.
- `FileLists`, `Databases` and `Generation` are the program: list objects whose flags and items are
  updated in place, the database object with its loops, and the two ways to run it. Each method is
  proved against the functions above. `Chains` is the linked list of items that a list object grows.

**privacyout** copies source text line by line and puts the markers `_`, `^`, `_^` and `^_` between
double quotes where they stand in a slot list and outside quotes.

- `PrivacyScan` is the scanner as a function, one step a character or marker. `PrivacyText` proves what
  becomes of the text, `PrivacyContext` that flags and stack say what the text before each position
  says, `PrivacyNesting` that balanced text leaves the stack alone, and `PrivacyBrackets` that in files without
  quotes counting brackets tells which are converted.
- `PrivacyConverter` is the program: an object with the two buffers and the flags of the original,
  proved against the scanner.

What was found on the way:

- The grand include file includes its headers between `# ifdef __cplusplus` and `# endif`. An outer file
  that is not C++ but may use that file, say an assembler file, therefore loses every header that was
  moved there: it sees its whole closure if and only if it is C++, may not use the grand include file, or
  needs nothing in it (`Outputs.SplitKeepsOrder`, and on the text written `Compiling.RunShowsClosure`).
  `Witnesses.AssemblerLosesHeader` builds the case from database lines.
- The incremental run can leave an include file stale, when a file's permission to use the grand
  include file changes and none of its headers reaches the threshold, and the grand include file, when
  a header crosses the threshold while the list of candidates stays the same. Both conditions are exact
  (`Refinement.RelativeRefinesOne`, `Refinement.RelativeRefinesGrand`), and `Witnesses` builds both
  cases from database lines.
- The makefile of a short incremental run gives the compiled grand include file no dependency at all,
  while that of a full run gives it its headers and their platform-dependent includees
  (`Incremental.IncrementalMakefile`), since only the writing of the grand include file counts them. The
  rules of the object files do not name those headers either (`Outputs.MovedIsNotNamed`). Running again
  with an unchanged database is enough (`Witnesses.MakefileForgets`).
- A comment at line 857 of `makeDeps.cpp` says that foo_unix.hh is marked as not to be included
  directly, as does the example at line 441. The code marks the second name, foo_pd.hh; the model does
  as the code does.

Names of files identify them throughout: `ReadDescribes` proves that the database never holds two
entries of one name. A fatal is a `Status` that ends every caller at once; what the objects hold after
it is left open, as the program is gone by then.

## Model

| member | source | states |
|---|---|---|
| Chains.Chain.Add | vm64/build_support/makeDeps.cpp:605-615 | an item is appended in place; `last` stays the last item that `first` leads to; chains that share no item with this one keep their contents and stay apart from it |
| Chains.Chain.AddIfAbsent | vm64/build_support/makeDeps.cpp:630-635 | an element is appended unless some item holds it |
| Chains.Chain.Walk | vm64/build_support/makeDeps.cpp:638-639 | from `first`, one `next` after the other passes every element in order and ends at `last` |
| CycleTrace.TraceFindsCycle | vm64/build_support/makeDeps.cpp:654-673 | at a back edge, with the path being an include path and nothing traced yet, the trace always meets an edge back to its start, whatever else it goes through |
| CycleTrace.TraceIsSound | vm64/build_support/makeDeps.cpp:654-673 | the fatal of the trace is reached only along include edges that lead back to `s` |
| WalkProofs.VisitAllKeeps | vm64/build_support/makeDeps.cpp:638-651 | after the search of a list: the path is as before, nothing is traced, the files visited are those listed or on the path, the list is duplicate-free and in include order and holds all that was to be searched |
| WalkProofs.VisitKeeps | vm64/build_support/makeDeps.cpp:676-687 | the same for the visit of one file; one that is on the path never returns |
| WalkProofs.VisitAllReaches | vm64/build_support/makeDeps.cpp:638-651 | nothing is listed but what the root reaches, and the fatal names a file on a cycle that the root reaches |
| WalkProofs.VisitAllIgnoresMarks | vm64/build_support/makeDeps.cpp:638-651 | the search lists the same files and ends the same way whatever is marked or was reported |
| WalkProofs.VisitAllReports | vm64/build_support/makeDeps.cpp:641-648 | exactly the marks of files met are lifted, and each is reported once |
| WalkProofs.VisitAllNames | vm64/build_support/makeDeps.cpp:641-647 | every report added names a file and one that includes it, which is the root or is reached by it |
| Closures.ClosureCorrect | vm64/build_support/makeDeps.cpp:690-697 | the search from an outer file is fatal if and only if it reaches a cycle; otherwise the list is all that it reaches by one include or more, each once, each file behind all it includes |
| Closures.CFileFromClearFlags | vm64/build_support/makeDeps.cpp:690-697 | from clear flags the list depends on the graph alone, and the files left with `beenHere` set are those listed, so that clearing along the list clears all |
| Closures.CFileNames | vm64/build_support/makeDeps.cpp:690-697 | so it is with the reports of the search from an outer file |
| Unfolding.VisitAllUnfolds | vm64/build_support/makeDeps.cpp:638-651 | the search adds, to what is listed, the includes written out depth first without any flag, each file at its first mention |
| Unfolding.UnfoldIsPlain | vm64/build_support/makeDeps.cpp:676-687 | where no cycle is in reach it does not matter what stands above a file when it is written out |
| Unfolding.ClosureIsUnfolding | vm64/build_support/makeDeps.cpp:690-697 | the list of an outer file is exactly its includes written out, each file at its first mention: order and all |
| Unfolding.GrandIsPool | vm64/build_support/makeDeps.cpp:879-885 | the grand list is exactly the permitted lists one behind the other, each file at its first mention |
| IncludeGraph.OrderedTransitively | vm64/build_support/makeDeps.cpp:676-687 | a list in which files follow what they include directly also has them follow what they include transitively |
| FileLists.FileList.AddIfAbsent | vm64/build_support/makeDeps.cpp:630-635 | the items with the new one at the end, unless present |
| FileLists.FileList.ListForFile | vm64/build_support/makeDeps.cpp:564-575 | the entry of that name, made on first mention with all flags clear; fatal for a new name in upper case |
| FileLists.FileList.TraceCycle | vm64/build_support/makeDeps.cpp:654-673 | flags and exit code after the trace; fatal exactly when the trace function meets its start; ends on every graph |
| FileLists.FileList.DoFiles | vm64/build_support/makeDeps.cpp:638-651 | all flags, marks, the list and the reports after the loop are those of the search function; ends on every graph |
| FileLists.FileList.Check | vm64/build_support/makeDeps.cpp:641-647 | a marked file is reported, its mark lifted, the exit code set, and the includer is named |
| FileLists.FileList.DoHFile | vm64/build_support/makeDeps.cpp:676-687 | the same for the visit of one file |
| FileLists.FileList.DoCFile | vm64/build_support/makeDeps.cpp:690-697 | a new list with name and permission of the file and its closure; fatal exactly if there is none; all flags clear before and after; each mark met lifted and reported once |
| FileLists.FileList.ListClosure | vm64/build_support/makeDeps.cpp:690-697 | the search into an empty list and the clearing behind it; each report names an include that there is |
| FileLists.FileList.ClearBeenHere | vm64/build_support/makeDeps.cpp:694-695 | clearing along the list leaves no file marked as visited |
| FileLists.FileList.CountItems | vm64/build_support/makeDeps.cpp:887-891 | every listed file counts one more, and no other |
| IncludeDbProofs.ReadDescribes | vm64/build_support/makeDeps.cpp:745-863 | reading is fatal if and only if some entry is bad; otherwise the files are the distinct names mentioned, in order, the includees of each file the distinct ones given to it, directives excluded, in first-occurrence order, the outer files likewise, and permissions and marks those of the directives |
| IncludeDbProofs.ReadIsOk | vm64/build_support/makeDeps.cpp:745-863 | names, includees and outer files are duplicate-free and every file referred to has an entry |
| IncludeDbProofs.OutersAreOuter | vm64/build_support/makeDeps.cpp:812-819 | every outer file has an outer suffix |
| Reading.ReadingFails | vm64/build_support/makeDeps.cpp:745-863 | the lines that end the run, word by word: an old-style pair, four words without the directive, a third word of more than 249 characters, a name in upper case |
| Reading.IncludesAreGiven | vm64/build_support/makeDeps.cpp:812-836 | a file includes exactly what the pairs give it, but for "no_precompiled_headers" |
| Reading.IncludesAreInOrder | vm64/build_support/makeDeps.cpp:812-836 | in the order in which the pairs first give it |
| Reading.OuterFilesAre | vm64/build_support/makeDeps.cpp:325-416 | the outer files are exactly the first words of pairs that end in .cpp, .c, .s or .S |
| Reading.OuterFilesAreInOrder | vm64/build_support/makeDeps.cpp:816-819 | in the order of their first pairs |
| Reading.RefusalsAreGiven | vm64/build_support/makeDeps.cpp:829-831 | exactly the files with a pair "no_precompiled_headers" may not use the grand include file |
| Reading.MarksAreGiven | vm64/build_support/makeDeps.cpp:856-857 | exactly the third words of lines of four are marked |
| Reading.PdsAreGiven | vm64/build_support/makeDeps.cpp:859-862 | the platform-dependent includees of a file are exactly the fourth words of the lines that have it as second |
| Databases.Database.Intern | vm64/build_support/makeDeps.cpp:564-575 | the object for a name, new or old, and the whole database around it unchanged |
| Databases.Database.GetPair | vm64/build_support/makeDeps.cpp:812-836 | the objects show the database with this pair read, or the call is fatal as the reading is |
| Databases.Database.GetQuad | vm64/build_support/makeDeps.cpp:839-863 | the same for a four-word line, and the platform-dependent include is written |
| Databases.Database.Get | vm64/build_support/makeDeps.cpp:745-807 | the objects show what all the entries stand for, or the call is fatal |
| Databases.Database.AddListing | vm64/build_support/makeDeps.cpp:869-873 | one turn of the first loop: one listing more, all flags clear again, reports exact |
| Databases.Database.ComputeListings | vm64/build_support/makeDeps.cpp:866-873 | one closure per outer file in their order; fatal exactly if one of them meets a cycle |
| Databases.Database.PoolListing | vm64/build_support/makeDeps.cpp:879-892 | one turn of the second loop: grand list and counts as the functions say, flags not reset |
| Databases.Database.PoolListings | vm64/build_support/makeDeps.cpp:879-893 | the second loop is the grand pass, and it is never fatal |
| Databases.Database.Compute | vm64/build_support/makeDeps.cpp:866-894 | fatal if and only if an outer file reaches a cycle; otherwise listings, grand list and counts are those of the plan, and the exit code is set exactly if something was reported |
| Computing.ListingsAreClosures | vm64/build_support/makeDeps.cpp:866-873 | without cycles every listing is the closure of its outer file, whatever was processed before |
| Computing.PlanIsGood | vm64/build_support/makeDeps.cpp:866-894 | the listings are the closures, and the grand list is the duplicate-free, dependency-ordered union of the permitted ones |
| Computing.GrandPassOfListings | vm64/build_support/makeDeps.cpp:879-893 | the second pass after the first: never fatal, reports nothing, and yields the grand list of the plan |
| Planning.GrandPassIsUnion | vm64/build_support/makeDeps.cpp:676-687 | as `beenHere` is not reset between files, the pass adds each needed file once, in include order |
| Planning.GrandPassIsSilent | vm64/build_support/makeDeps.cpp:879-885 | no mark is left in the closures, so the grand pass never reports |
| Planning.CountNeverFalls | vm64/build_support/makeDeps.cpp:887-891 | along an include edge the count does not fall |
| Planning.CountIsCardinality | vm64/build_support/makeDeps.cpp:877-892 | the count kept by increments is the size of the set of permitted listings that hold the file |
| Guarantees.CountsAreExact | vm64/build_support/makeDeps.cpp:877-892 | a count is the number of outer files that permit the grand include and reach the header |
| Guarantees.ReportsAreExact | vm64/build_support/makeDeps.cpp:638-648 | the reports added are, once each, on exactly the marked files that an outer file, or a file it reaches, includes directly, and each names such a file |
| Outputs.GrandIsSelfContained | vm64/build_support/makeDeps.cpp:930-953 | for every threshold, the grand include file holds exactly the needed headers that reach it, once each, each behind all it includes |
| Outputs.SplitKeepsOrder | vm64/build_support/makeDeps.cpp:724-742 | grand include file and own include file together give an outer file its whole closure if and only if it is C++, may not use the grand file or needs nothing in it; no header is given twice, and exactly when the order is kept is stated too |
| Compiling.GrandIsRead | vm64/build_support/makeDeps.cpp:930-953 | read line by line, the grand include file includes its headers for C++ and nothing otherwise |
| Compiling.CompiledIsSeen | vm64/build_support/makeDeps.cpp:724-953 | followed through the text written, the includes of an outer file are the headers it is said to see, in their order |
| Compiling.RunShowsClosure | vm64/build_support/makeDeps.cpp:1101-1106 | after a run from scratch, compiling an outer file meets its whole closure, each file behind all it includes and none twice, if and only if the condition above holds |
| Outputs.MakefileIsComplete | vm64/build_support/makeDeps.cpp:961-1037 | every header of a closure and each of its platform-dependent includees is a prerequisite of the object file, or of the precompiled file that the object file depends on |
| Outputs.CompiledDepends | vm64/build_support/makeDeps.cpp:984-1033 | the compiled grand include file depends on exactly its headers and their platform-dependent includees, if headers were counted, and otherwise on nothing |
| Outputs.MovedIsNotNamed | vm64/build_support/makeDeps.cpp:1000-1028 | the rule of an object file does not name a header that was moved, but for names that stand there anyway |
| Outputs.StemEndsAtLastDot | vm64/build_support/makeDeps.cpp:712-720 | the stem is what stands before the last dot |
| Databases.Database.PutInclFile | vm64/build_support/makeDeps.cpp:724-742 | the include file of an outer file is the one planned, fatal exactly if its name is too long |
| Databases.Database.WriteIndividualIncludes | vm64/build_support/makeDeps.cpp:903-911 | all include files are written, and nothing else |
| Databases.Database.CompareLists | vm64/build_support/makeDeps.cpp:578-602 | true if and only if both lists hold files of the same names, leave them to the grand include file alike where databases are given, and do not differ in a platform-dependent include |
| Databases.Database.CompareListings | vm64/build_support/makeDeps.cpp:578-602 | on the lists of one outer file the comparison tells whether the listings are unchanged, in terms of the two plans |
| Databases.Database.WriteIndividualChanges | vm64/build_support/makeDeps.cpp:913-926 | the parallel walk rewrites the include files of changed listings and no other |
| Databases.Database.WriteGrandInclude | vm64/build_support/makeDeps.cpp:930-953 | the grand include file, and the number of headers in it |
| Databases.Database.StemOf | vm64/build_support/makeDeps.cpp:712-720 | the backward search for the last dot yields the stem, and fails exactly on a name without a dot |
| Databases.Database.WriteGrandUnixMakefile | vm64/build_support/makeDeps.cpp:961-1037 | the makefile, with the precompiled section if headers were counted |
| Databases.Database.Put | vm64/build_support/makeDeps.cpp:1040-1047 | the whole disk after a full run |
| Databases.Database.PutDiffs | vm64/build_support/makeDeps.cpp:1049-1063 | the whole disk after the incremental run |
| Databases.Database.IsShortRun | vm64/build_support/makeDeps.cpp:1052-1053 | the run is short exactly if outer files and grand list have the same names in the same order |
| Incremental.IncrementalIndividual | vm64/build_support/makeDeps.cpp:913-926 | the include file of an outer file is as a full run would write it, if and only if the run was not short or its permission did not change unseen |
| Incremental.IncrementalGrand | vm64/build_support/makeDeps.cpp:1049-1063 | the grand include file is as a full run would write it, if and only if the run was not short or no header of the list crossed the threshold |
| Incremental.IncrementalMakefile | vm64/build_support/makeDeps.cpp:961-1063 | the makefile is as a full run would write it, if and only if the run was not short or no header is precompiled; and what the compiled grand include file depends on in it, after either kind of run |
| Incremental.IncrementalListing | vm64/build_support/makeDeps.cpp:913-926 | whatever the disk held, the include file of an outer file is right afterwards unless it was left unwritten and was wrong before |
| Incremental.PutPdsAt | vm64/build_support/makeDeps.cpp:849-853 | reading a database writes, for each platform-dependent include, the line given last, and no other include file |
| Incremental.IncrementalIsFull | vm64/build_support/makeDeps.cpp:1049-1063 | the incremental run equals the full one if and only if all three conditions hold |
| Incremental.UnchangedContent | vm64/build_support/makeDeps.cpp:578-602 | listings that compare as equal give equal include files if and only if the permission is the same |
| Incremental.ReadingKeepsFiles | vm64/build_support/makeDeps.cpp:849-853 | reading a database overwrites none of the files of an earlier run unless a platform-dependent include bears the name of an outer file |
| Generation.GetAndCompute | vm64/build_support/makeDeps.cpp:1101-1104 | reading and computing end in the fatal exactly if an entry is bad or an outer file reaches a cycle |
| Generation.ToldIsWritten | vm64/build_support/makeDeps.cpp:641-647 | each report of a run is a pair of the database, on a file that is the third word of a line of four |
| Generation.AbsoluteGeneration | vm64/build_support/makeDeps.cpp:1101-1106 | the disk after a run from scratch; the reports are those of the misuses; exit code 1 exactly if there is one |
| Generation.RelativeGeneration | vm64/build_support/makeDeps.cpp:1120-1127 | the disk after a run from an old to a new database; the reports are those of the misuses in the old and then in the new; exit code 1 exactly if there is one |
| Refinement.RelativeRefinesOne | vm64/build_support/makeDeps.cpp:1101-1127 | over whole runs, from scratch on the old database and then incremental to the new one: the include file of an outer file is as scratch on the new one writes it, if and only if the second run was not short, or its listing changed, or what stands there already, from the first run or from a platform-dependent include of that name, is what belongs there |
| Refinement.RelativeRefinesGrand | vm64/build_support/makeDeps.cpp:1101-1127 | so is the grand include file, if and only if the second run was not short or no header crossed the threshold |
| Refinement.PdsAreRight | vm64/build_support/makeDeps.cpp:849-853 | so are the platform-dependent includes of the new database, always |
| Refinement.RelativeRefinesAbsolute | vm64/build_support/makeDeps.cpp:1101-1127 | every file that scratch on the new database writes is, after the two runs, as it writes it, if and only if the exact condition holds |
| Refinement.AgainIsShort | vm64/build_support/makeDeps.cpp:1049-1063 | a run to the same database is short, and its makefile is as if nothing were precompiled |
| Products.WhichHeaders | vm64/build_support/makeDeps.cpp:516-518 | in the grand include file are the headers that some permitting outer file reaches and at least threshold many do; in the own file of an outer file, the rest of what it reaches |
| Products.IncludeFileIs | vm64/build_support/makeDeps.cpp:724-742 | after a run from scratch: path and lines of the include file of each outer file, from the graph alone |
| Products.GrandFileIs | vm64/build_support/makeDeps.cpp:930-953 | the same for the grand include file, with its condition |
| Products.PdFileIs | vm64/build_support/makeDeps.cpp:849-853 | and for a platform-dependent include that no outer file bears the name of |
| Products.FilesWritten | vm64/build_support/makeDeps.cpp:1101-1106 | a run from scratch writes those files and the makefile, and no others |
| Products.RunEnds | vm64/build_support/makeDeps.cpp:392-402 | a run is not fatal exactly if no line is refused, no outer file reaches a cycle and none has a name of more than 249 characters |
| Products.ObjectsAreListed | vm64/build_support/makeDeps.cpp:970-980 | whatever was counted, the makefile begins with its one list of object files, a word for each outer file in their order: its name up to the last dot and ".o", made by a rule from that file |
| Products.MakefileIs | vm64/build_support/makeDeps.cpp:961-1037 | the whole makefile after a run from scratch: the objects, a rule for each outer file with all that it depends on, and what the compiled grand include file depends on |
| Products.MakefileIsToo | vm64/build_support/makeDeps.cpp:961-1063 | the same after an incremental run, where a short run counts nothing |
| Products.ShortRunIs | vm64/build_support/makeDeps.cpp:1052-1053 | an incremental run is short exactly if the outer files and what they need are as before |
| Products.WhoSeesAll | vm64/build_support/makeDeps.cpp:724-953 | after a run from scratch an outer file is compiled with all that it reaches exactly if its name ends in .cpp, or it refuses the grand include file, or nothing that it reaches was moved there |
| Witnesses.GrandFileGoesStale | vm64/build_support/makeDeps.cpp:1049-1063 | database lines, none of them fatal, after which the incremental run leaves the grand include file wrong |
| Witnesses.IncludeFileGoesStale | vm64/build_support/makeDeps.cpp:578-602 | database lines, none of them fatal, after which the incremental run leaves an include file wrong |
| Witnesses.MakefileForgets | vm64/build_support/makeDeps.cpp:1049-1063 | database lines that, run twice, leave a makefile in which a header that every outer file needs is no prerequisite of anything |
| Witnesses.AssemblerLosesHeader | vm64/build_support/makeDeps.cpp:930-953 | database lines after which an outer file that is not C++ is compiled without a header it needs |
| Witnesses.CastExists | vm64/build_support/makeDeps.cpp:325-328 | names for these cases: a.cpp or a.S, b.cpp, h.hh and k.hh |
| PrivacyText.MarkerStands | historical/contrib/privacyout.c:75-81 | the test finds a marker if and only if one stands there, between blanks, a backslash or the ends of the line, and it finds the only one that does |
| PrivacyText.MarkersAreFour | historical/contrib/privacyout.c:153-181 | a marker is found exactly where one of "_", "^", "_^" and "^_" stands between blanks, a backslash or the ends of the line |
| PrivacyText.FoundBetweenBlanks | historical/contrib/privacyout.c:75-81 | so each of the four is found between blanks |
| PrivacyText.MarkerIsPut | historical/contrib/privacyout.c:153-181 | in a slot list outside quotes it is put between double quotes |
| PrivacyText.OthersAreCopied | historical/contrib/privacyout.c:189-190 | anything else is copied |
| PrivacyText.BarsThatCount | historical/contrib/privacyout.c:32-45 | a bar counts exactly if none of the characters of a binary operator stands beside it |
| PrivacyText.TextIsConserved | historical/contrib/privacyout.c:125-191 | deleting the inserted quotes from the output gives the input |
| PrivacyText.LengthIsBounded | historical/contrib/privacyout.c:125-191 | a line of n characters yields at most 2n, and one more if n is odd |
| PrivacyText.StepWithinBudget | historical/contrib/privacyout.c:58-67 | no step takes more of that than its share, which depends on whether a blank is behind it |
| PrivacyText.OutputIsBounded | historical/contrib/privacyout.c:125-191 | the bound holds for lines that are refused as well |
| PrivacyText.BoundIsTight | historical/contrib/privacyout.c:125-191 | and just as many, for every n, in a slot list |
| PrivacyText.SameBar | historical/contrib/privacyout.c:32-45 | a bar that is copied is lone in the output exactly if it was in the input |
| PrivacyText.SameMarker | historical/contrib/privacyout.c:75-81 | the marker test gives the same at a copied character as it did in the input |
| PrivacyText.SameStep | historical/contrib/privacyout.c:125-191 | where nothing is inserted, the second scan does what the first did |
| PrivacyText.QuotedIsCopied | historical/contrib/privacyout.c:155-181 | the second scan copies a marker between its quotes and ends in the context it had before them |
| PrivacyText.Rescan | historical/contrib/privacyout.c:117-192 | scanning the output runs in step with scanning the input: same context, same bars and brackets, nothing quoted |
| PrivacyText.LineIsIdempotent | historical/contrib/privacyout.c:117-192 | a converted line is accepted and unchanged by the next conversion |
| PrivacyText.ConversionIsIdempotent | historical/contrib/privacyout.c:117-192 | so is a converted file, and the context at its end is the same |
| PrivacyContext.ApplyTracks | historical/contrib/privacyout.c:17-29 | each bar and bracket keeps the saved flags the parities of lone bars at the levels around |
| PrivacyContext.StepAgrees | historical/contrib/privacyout.c:125-191 | a step stops exactly where the text before it calls for it, and otherwise ends with the flags that the text says |
| PrivacyContext.ScanAgrees | historical/contrib/privacyout.c:117-192 | a line is refused if and only if somewhere outside quotes a character that counts is escaped or a bracket closes none |
| PrivacyContext.ConvertAgrees | historical/contrib/privacyout.c:117-192 | a file is converted if and only if none of its lines holds such trouble |
| PrivacyContext.ScanFails | historical/contrib/privacyout.c:48-51 | a line is refused at its first trouble, as an escape if the character is escaped and as an empty stack otherwise |
| PrivacyContext.ConvertFails | historical/contrib/privacyout.c:115-194 | a file is given up in the first line with trouble, whose number is told; the lines before it are written |
| PrivacyContext.ContextIsRight | historical/contrib/privacyout.c:117-192 | before every piece of every line of a file, the slot-list flag is the parity of lone bars since the innermost open bracket, the quote flags name the quote that is open, the escape flag is the parity of the backslashes just before, and the piece is a quoted marker exactly where the first is odd, no quote is open and a marker stands |
| PrivacyContext.MarkersAreQuoted | historical/contrib/privacyout.c:117-192 | in a file, each of the four texts that the scan comes to is put between double quotes if bars are odd at its level and no quote is open, and copied otherwise |
| PrivacyContext.DepthIsBounded | historical/contrib/privacyout.c:17-20 | the stack gets never deeper than the most brackets open at a time |
| PrivacyContext.DepthIsReached | historical/contrib/privacyout.c:17-20 | and so deep it gets where nothing is refused |
| PrivacyNesting.RunTracks | historical/contrib/privacyout.c:17-29 | the stack runs empty if and only if more brackets were closed than opened |
| PrivacyNesting.BalancedKeepsStack | historical/contrib/privacyout.c:134-152 | a balanced segment leaves the stack as it found it and flips the flag once for each bar outside its brackets |
| PrivacyNesting.BalancedLineKeepsStack | historical/contrib/privacyout.c:134-152 | so does a line whose own brackets match |
| PrivacyNesting.StretchRuns | historical/contrib/privacyout.c:117-192 | between any two points of a file, in one line or lines apart, flag and stack change by the bars and brackets that stand between them outside quotes |
| PrivacyNesting.BalancedStretchKeepsStack | historical/contrib/privacyout.c:134-152 | so a balanced stretch between any two points of a file leaves the stack as it found it, and the flag flipped once for each bar outside its brackets |
| PrivacyBrackets.BracketsOfLine | historical/contrib/privacyout.c:140-152 | a line without quotes and backslashes is accepted exactly if no part from its start closes more round and square brackets than it opens, and leaves so many flags saved as are open |
| PrivacyBrackets.BracketsDecide | historical/contrib/privacyout.c:117-192 | so it is with a file of such lines |
| PrivacyConverter.Converter.Push | historical/contrib/privacyout.c:17-20 | the flag is on top of the stack, the rest as before |
| PrivacyConverter.Converter.Pop | historical/contrib/privacyout.c:22-29 | the top is returned and removed; failure on the empty stack |
| PrivacyConverter.Converter.Output | historical/contrib/privacyout.c:65-67 | the string is appended to the line |
| PrivacyConverter.NeedIsHeight | historical/contrib/privacyout.c:15-20 | a file that is accepted needs a stack for the most brackets that are open in it at a time |
| PrivacyConverter.HeightIsEnough | historical/contrib/privacyout.c:10-20 | and that is enough for any file, with lines short enough for the line buffer |
| PrivacyConverter.ProgramSizes | historical/contrib/privacyout.c:10-15 | in the program, 1000 brackets open at a time and lines of 4999 characters fit |
| PrivacyConverter.ProgramOverflows | historical/contrib/privacyout.c:10-15 | and there is a line of 5000 that does not |
| PrivacyConverter.Converter.Mark | historical/contrib/privacyout.c:155-181 | a marker in a slot list outside quotes is written between quotes; failure if escaped |
| PrivacyConverter.Converter.Switch | historical/contrib/privacyout.c:127-183 | flags and stack after the switch are those of the step |
| PrivacyConverter.Converter.Character | historical/contrib/privacyout.c:125-191 | one turn of the loop is one step: flags, stack, escape flag, position and output |
| PrivacyConverter.Converter.ProcessLine | historical/contrib/privacyout.c:117-193 | the line buffer holds the conversion of the line, or the program gives up for the same reason as the scan; demanded is room for just what is saved and written |
| PrivacyConverter.Converter.ProcessFile | historical/contrib/privacyout.c:115-194 | the lines written are the conversion of the file from whatever stack there was; on failure, the line number and the lines written until then |

## Left out

- Databases.Database.Get: starts from lines split into two or four words; comments, empty lines, over-long lines and lines of other lengths are not modelled.
- Databases.Database.WriteGrandUnixMakefile: the makefile is a list of variables and rules with their words; blanks and line ends between them are not modelled.
- Generation.RelativeGeneration: does not copy the new database file over the old one at the end; an old database that is missing is one without entries.
- Refinement.RelativeRefinesAbsolute: says nothing of include files that stay behind from outer files no longer there.
- Compiling.RunShowsClosure: assumes that no header bears the name of the grand include file; what the compiler finds in the headers themselves, and which files it takes for C++ other than by the suffix `.cpp`, are not part of this model.
- FileLists.FileList.AddIfAbsent: the items of a list object are a sequence in one field; `Chains` proves apart from it that linked items with `first` and `last` behave as that sequence, and that chains without common items do not disturb each other.
- PrivacyConverter.Converter.ProcessFile: demands buffers that hold what is saved and written; the program does not look, and what it does beyond its 1000 flags and 10000 characters is left open.
- The state of the objects and of the disk after a fatal; the text of messages; progress messages.
- platformDependentIncludees is an empty list where the program may have none; the two are treated alike there.
- Platforms other than Linux: no grand include file, file names compared without case.
- The exit at the end of main when the exit code is set, and the reading of the arguments.
- verify, addFirst, create_file_if_absent and the dummy file template, which nothing uses.
- Widths of integers: counts and the threshold are unbounded.
- privacyout: renaming to .BAK, opening files, the splitting of over-long lines by fgets, characters of code 0, the warnings at the end of a file and back2, which returns at once.
