# DomainLens: the parts that carry promises, and what they keep

DomainLens watches domains and organisations. Most of it asks other systems
questions; a few self-contained pieces decide, count or rewrite, and promise
something about every input or every run. Those are modelled here in Dafny, one
module per concern, and their promises are proved.

- **Versions and CVEs** (`CveVersions`, `CveAssess`, `CveFixes`, `CveText`).
  Versions are compared with zero padding; affected ranges are intervals over
  them. A verdict from a handful of probes is shown to speak for every patch
  release, a release offered as clean is shown to be safe for everything later in
  its branch and said exactly when it is the first such, and a release offered as the
  fix is described exactly, including when it is not one.
- **The local copy of the CVE feed** (`CveStore`). Full syncs, overlapping
  increments and failures, in any order, leave a copy that agrees with the feed,
  but for what has left it.
- **Organisation units** (`Forest`, `Merge`, `MergeSteps`, `MergeTheorem`,
  `MergeAnchor`, `MergeCount`, `MergeFields`, `MergeRun`, `MergeOrders`, `MergeFold`,
  `Organisation`, `Changes`, `Trees`, `Parts`, `Listing`, `Groups`). Units nest by a parent reference. A lineage gives
  every unit the line of units from its root; one exists exactly when nothing is its
  own ancestor. Tables may also hold cycles written by hand: what hangs on units at
  the top is a forest, it is what the list shows, and every call works on it and
  leaves the rest as it is. The recursive merge in place is followed row by row: the
  tree below the source ends below the target, domains included, exactly when the
  source's branch does not repeat the way from the target to the source.
- **The lookup scheduler** (`Scheduler`). At most thirty domains a run, oldest
  first, and every due domain has its turn within a bound.
- **The VBA decompressor** (`Ovba`, `OvbaFormat`, `OvbaLayout`). Section 2.4.1 of
  [MS-OVBA]: decoding undoes encoding for every container; for every input, cut short
  or malformed, the answer is what its chunks and tokens spell, or the refusal they
  call for; and no read leaves the data.
- **Edit distance** (`Evidence`). The rolling row computes the length of a
  shortest script of edits.
- **Single-flight lookups** (`CrtSh`). Callers and shared lookups as a state
  machine in which every lock section and every wait is one step: one leader a name,
  an end for every run, and nothing returned but what a request came to.
- **CVE alerts** (`CveAlerts`), the **hash-chained audit log** (`AuditLog`), the
  **account lockout** (`Lockout`) and the **rate limit** (`RateLimit`): what holds
  over every run.

`Common` holds values that may be missing, the sizes of sets and the order of
texts. Tables are maps, lists are sequences, moments are whole numbers, and a
transaction is one step. What other systems answer is a parameter. SHA-256 is a
constructor, so that different contents have different hashes and no row's hash
occurs inside itself.

Where the code does something other than its description says, the model follows
the code and the difference is stated exactly:

- `merge_group` forbids a target below the source but not one above it. If the
  source's branch then repeats the way from the target to the source, a unit is
  folded into the source itself and lost with it: `MergeTheorem.MergeConservesIff`,
  with an example in `Groups.NestedIsLost`. Then a unit can also be counted twice, and
  the order in which children are taken up decides what is left:
  `MergeOrders.OrderDecides`.
- `delete_group` lifts units without looking at names: `Changes.LiftApartIff`,
  with an example in `Groups.CrowdedClash`.
- `ensure_group` takes any parent: a unit put under one in a cycle, or where the way
  up leads back to its own new number, is stored and not listed: `Trees.AddedHangs`,
  `Groups.Tables.EnsureGroup`.
- `_fixed_in` promises a release that leaves every applicable CVE behind; the one
  it returns leaves behind the ranges the shown version lies in, and can lie in a
  later one. It leaves all behind exactly when no range catches it, and whether one
  does can be told from the ranges and the shown version beforehand:
  `CveFixes.FixLeavesAllIff`, `CveFixes.FixCanBeAffected`.
- `overview` promises the first release of a branch that none of the known CVEs
  applies to; a range that holds nothing can name a later one. The release named is
  the first exactly when the one just before it is reached by a range with room for
  a version: `CveAssess.FirstSafeIff`, `CveAssess.EmptyRangeNames`.
- `fix_releases` promises a fixed release per branch and the release in which the
  oldest flaw appeared. A branch's fix is past the ranges that end in its
  branch, and can lie in one that ends in a later one: it is free of all ranges
  exactly when none runs on in the branch past every end named there. A range without
  a fix is passed over before its start is looked at, so it can begin before the
  release given, or have no start at all; none begins earlier exactly when each of
  them begins at or after the start of one that has its fix:
  `CveFixes.FixReleases`, `CveFixes.FixSafeIff`, `CveFixes.BeginsEarlierIff`, with
  examples in `CveFixes.FixInOtherRange` and `CveFixes.OlderWithoutFix`.
- A CVE that stops naming a product leaves the product's feed; no increment says so,
  and its ranges stay until the next full sync: `CveStore.RunMirrors`,
  `CveStore.LeftBehind`.
- An exception between an alert's report and its being remembered makes the next
  recheck report it again: `CveAlerts.ReportedOnce`, `CveAlerts.ToldTwice`.
- A range whose ends meet with only one included holds nothing, yet counts as
  reaching a release: `CveAssess.ReachesIffMeets`, `CveAssess.EmptyRangeReaches`.
- `record` stamps an entry before it takes the lock, so that a purge by time can
  read as tampering: `AuditLog.PurgeIntactIff`, `AuditLog.PurgeOutOfOrder`.
- A due domain stops being due when its release window closes:
  `Scheduler.DueAfterWindow`, `Scheduler.WindowCanEndDue`.
- A right password clears the failure counter, and so does a new password set by an
  administrator: the lockout's bound grows by the maximum less one with every right
  one inside the window and by the maximum with every reset, and is reached for
  every number of both: `Lockout.WindowBound`, `Lockout.BoundIsReached`,
  `Lockout.MaximumExceeded`.
- Similarity is rounded to three decimals, after which 1 means equal labels only
  below 2000 characters: `Evidence.RoundedMeaning`, `Evidence.ScoreMeaning`.

## Model

| member | source | states |
|---|---|---|
| Evidence.Levenshtein | evidence.py:66-83 | the rolling-row loop returns the recursive distance for every pair of strings |
| Evidence.CellIsLev | evidence.py:74-83 | every cell of the table is the distance of the two prefixes it stands for |
| Evidence.LevIsLeastScript | evidence.py:66-83 | the distance is the length of some script of insertions, deletions and substitutions that turns one string into the other, and no script is shorter |
| Evidence.BestScript | evidence.py:77-81 | a script of exactly that length, which does turn the one into the other |
| Evidence.LevAtMostScript | evidence.py:66-83 | no script of edits at any positions is shorter than the distance |
| Evidence.LevSymmetric | evidence.py:66-83 | the distance is the same both ways |
| Evidence.LevTriangle | evidence.py:66-83 | a detour through a third string is never shorter |
| Evidence.LevZero | evidence.py:67-68 | the distance is zero for equal strings only |
| Evidence.LevBounds | evidence.py:50-51 | at least the difference in length, at most the longer length |
| Evidence.LevOfSurrounded | evidence.py:59 | a label that contains the protected one is as far from it as it is longer |
| Evidence.RoundedMeaning | evidence.py:50-51 | the rounded value is within half a thousandth of the fraction, even where it is just that far, and 1 exactly when 2000 times the distance is at most the length |
| Evidence.ConfusableScore | evidence.py:36-63 | nothing for an empty name, else the score the rows below speak of |
| Evidence.ScoreMeaning | evidence.py:50-63 | similarity, rounded to three decimals, lies in [0, 1] and is 1 exactly when the distance is at most one in two thousand of the longer label, so below 2000 characters for equal labels only; distance zero means equal labels; what the two flags of containment and TLD swap say about distance and similarity |
| Evidence.NameParts | evidence.py:46-48 | a name is its label, and after the first dot its TLD, in one way only; without a dot it is all label |
| Evidence.ScoreFlags | evidence.py:52-62 | each flag by the parts of the two names: equal labels, equal TLDs, and whether the protected label occurs in a different one |
| Evidence.ScoreSymmetric | evidence.py:50-63 | which name is the protected one changes neither distance nor similarity |
| Ovba.OvbaDecompress | file_scan.py:167-208 | the whole decompressor with its errors, for every input and limit: no container exactly when the data does not begin with 1; reads stay inside the data and the chunk's own output, and it ends |
| Ovba.BodyLoop | file_scan.py:182-207 | the flag bytes of one compressed chunk |
| Ovba.GroupLoop | file_scan.py:185-205 | up to eight tokens of one flag byte, ending early at the chunk's end |
| Ovba.ReadToken | file_scan.py:188-205 | one literal or copy token, a truncated one ending the chunk, an offset before the chunk refused |
| Ovba.CopyLoop | file_scan.py:204-205 | the copying loop over its own growing output |
| Ovba.CopyBackMeaning | file_scan.py:204-205 | a copy fulfils out[j] = out[j - offset], overlapping or not |
| Ovba.CopyIsUnique | file_scan.py:204-205 | and is the only result that does |
| OvbaFormat.DecodeUndoesEncode | file_scan.py:167-208 | for every container of raw chunks and chunks of valid tokens, decoding the bytes gives the expansion of the tokens, and is refused exactly when a compressed chunk ends past the limit |
| OvbaFormat.ChunkUndone | file_scan.py:173-207 | one chunk read back, wherever it stands in the data |
| OvbaFormat.JoinWord | file_scan.py:197-200 | offset and length of a copy token are recovered from its sixteen bits, for every width |
| OvbaFormat.BodyBound | file_scan.py:182-205 | no chunk reaches 2^15 bytes, so no width exceeds 15 and no shift is negative |
| OvbaFormat.CopyLengthBound | file_scan.py:197-199 | how long one copy can be, given what the chunk holds |
| OvbaFormat.DecodeBound | file_scan.py:167-208 | what is returned is at most the limit plus the length of the input |
| OvbaLayout.DecodeYields | file_scan.py:167-208 | for every input and limit the result is exactly what the headers, flag bytes and tokens say: the text they spell; refused as pointing before a chunk at the first such token, and as too long at the first compressed chunk past the limit |
| OvbaLayout.BodyIs | file_scan.py:182-205 | a chunk's tokens spell one text, or one of them points before the chunk, never both |
| OvbaLayout.PointsAre | file_scan.py:195-202 | offset and length of a copy token, for the least width that counts what the chunk holds |
| OvbaLayout.CutShort | file_scan.py:171-194 | what is cut off at the end of a container, within a chunk, a header or a token, takes only the end of its text |
| CveVersions.CmpOrder | cve_feed.py:453-456 | zero-padded comparison is a total preorder |
| CveVersions.CmpTie | cve_feed.py:453-456 | versions tie exactly when they agree at every position |
| CveVersions.CmpDense | cve_feed.py:453-456 | between any two versions there is another |
| CveVersions.CmpBetween | cve_feed.py:453-456 | what lies between two releases of a branch begins with its numbers |
| CveVersions.ContainsConvex | cve_feed.py:478-489 | what lies between two members of a range is a member |
| CveVersions.NonEmptyIff | cve_feed.py:469-489 | a range holds some version exactly when a comparison of its two ends says so |
| CveAssess.Hits | cve_feed.py:495-507 | with the patch release unknown, "no" exactly when no patch release of the branch is in the range, "yes" exactly when the range is an interval that holds all of them up to 999999 |
| CveAssess.ProbesSuffice | cve_feed.py:503-507 | if any patch release is in the range, one of the few probed is |
| CveAssess.EndsSuffice | cve_feed.py:500-502 | first and last release in the range means all of them |
| CveAssess.ReachesIffMeets | cve_feed.py:812-822 | three comparisons decide over all versions whether the range takes in any from the release to the next branch, unless it holds none at all |
| CveAssess.FromOnIff | cve_feed.py:812-822 | the stretch from a release to the next branch is the release's own branch from there on |
| CveAssess.EmptyRangeReaches | cve_feed.py:818-822 | a range that holds nothing can be counted as reaching |
| CveAssess.UnreachedIsSafe | cve_feed.py:870-871 | a release no range reaches is in no range, nor is anything later in its branch |
| CveAssess.FixOfIff | cve_feed.py:866-867 | a range names a release exactly when it is an interval with an exclusive end of two or three numbers, and these are the release's |
| CveAssess.CandidateIsFirst | cve_feed.py:866-869 | every range that names the candidate and holds any version meets every earlier release of the branch |
| CveAssess.FirstSafeIff | cve_feed.py:840-871 | a release is the first safe one of its branch exactly when the one just before it is reached by a range with room for a version, or there is none before it |
| CveAssess.NamedIsFirst | cve_feed.py:866-869 | a candidate named by a range with room for a version is the first |
| CveAssess.EmptyRangeNames | cve_feed.py:866-871 | a range that holds nothing can name a release that is safe and not the first |
| CveAssess.Candidates | cve_feed.py:865-869 | per branch the greatest exclusive end, and no other |
| CveAssess.NewestFirst | cve_feed.py:870 | the branches in strictly descending order, each once |
| CveAssess.AnyReaches | cve_feed.py:871 | whether some range reaches the release |
| CveAssess.CleanFrom | cve_feed.py:860-882 | every release listed is a candidate from which no usable range applies any more, and whether it is the first such of its branch is said exactly; newest branch first, none missing while there is room |
| CveFixes.Split | cve_feed.py:623-643 | which CVEs apply, which may, each list ordered by exploitation, score and id, and how many have nothing to compare with; a distribution build has none that apply for certain |
| CveFixes.Ranked | cve_feed.py:623-643 | the order is that of the rank, and nothing is lost or repeated |
| CveFixes.RankMeaning | cve_feed.py:553-554 | exploited ones first, then by score, then by id, each only where those before tie |
| Common.TextLeIff | cve_feed.py:553-554 | one text comes before another when it begins it, or has the smaller character where they first differ |
| CveFixes.SplitMembers | cve_feed.py:623-643 | the two lists hold exactly the CVEs whose verdicts put them there |
| CveFixes.UnversionedCounts | cve_feed.py:628-632 | the CVEs counted as having nothing to compare with are those without a usable range |
| CveFixes.ConditionalNeverCertain | cve_feed.py:628-638 | only a range without conditions makes a CVE apply for certain; one with conditions makes it possible at most |
| CveFixes.NothingFoundMeansNone | cve_feed.py:623-643 | when both lists are empty, no usable range takes in the shown version nor any patch release it could be |
| CveFixes.FixedIn | cve_feed.py:557-570 | a target exists exactly when every applicable CVE has a fix in the branch; it is the first version past every range the shown one lies in, the greatest of their ends, and leaves every CVE behind exactly when no range catches it |
| CveFixes.GreatestEndIsFirstClear | cve_feed.py:563-569 | the greatest exclusive end is the least version at or above the shown one that lies in none of those ranges, in the same branch and strictly newer |
| CveFixes.CatchesIff | cve_feed.py:557-570 | a range takes in the greatest end exactly when it is an exact version tied with it, or an interval by whose start one of the ends lies and by whose end all of them do |
| CveFixes.FixCanBeAffected | cve_feed.py:557-570 | the release found can lie in another range of the same CVE |
| CveFixes.FixLeavesAllIff | cve_feed.py:557-570 | it leaves every CVE behind exactly when no usable range catches it, a condition on the ranges and the shown version alone |
| CveFixes.FixReleases | cve_feed.py:580-620 | the CVEs listed, once each, and those with a range that names no fix, in the order asked for; fixes exactly the greatest of each branch that a range names one in, newest branch first; each is free of all their plain ranges exactly when none runs on in its branch past every end named there; the oldest start of the ranges that name a fix, given exactly when all these have one and some start is before the newest fix; and no plain range begins before it exactly when each without a fix that holds anything begins at or after one of these starts |
| CveFixes.FixSafeIff | cve_feed.py:603-611 | from the fix of a branch on, the branch is free of a list of ranges exactly when none of them takes the branch in before its end and goes on past every exclusive end in it |
| CveFixes.FixInOtherRange | cve_feed.py:603-611 | the fix of one CVE, 8.1.4, lies in the range of another that is fixed in 8.2.1 only |
| CveFixes.StartsFromIff | cve_feed.py:612-618 | no version before a release lies in a range exactly when the range holds nothing or begins at or after it |
| CveFixes.BeginsEarlierIff | cve_feed.py:603-618 | no range of a list begins before the oldest start exactly when each without a fix that holds anything begins at or after the start of one with a fix |
| CveFixes.OlderWithoutFix | cve_feed.py:603-618 | a range without a fix and without a start takes in version 7, and the oldest start is still given as 8.1.0 |
| CveFixes.FixPerBranch | cve_feed.py:609-618 | exactly the greatest fix of each branch, and every range ends at or before its branch's |
| CveFixes.IsPastFix | cve_feed.py:606-610 | a plain range that ends at or before a release holds nothing from that release on |
| CveFixes.Gather | cve_feed.py:597-611 | every CVE asked for once, in the order asked for, with those lacking a fix set apart, and exactly their plain ranges that name one |
| CveFixes.AllPlainIff | cve_feed.py:595-601 | the ranges an advisory can use are the unconditional ones with readable ends of the CVEs asked for |
| CveFixes.Introduced | cve_feed.py:612-618 | the least start of the ranges that name a fix, given exactly when all of these have one and some start is before the newest fix |
| CveFixes.Earliest | cve_feed.py:616 | the least of the starts |
| CveText.ReadWritten | cve_feed.py:437-450 | reading a written version gives it back, with patch letters and without |
| CveText.WrittenApart | cve_feed.py:510-515 | no two versions are written alike |
| CveText.VersionOfIff | cve_feed.py:433-450 | a text is read exactly when, without white space at its ends, it is numerals with single dots between them, or where letters count these and one letter after them |
| CveText.LetterRead | cve_feed.py:437-450 | a release with a patch letter, in either case, reads as the release with the number of the letter added |
| CveText.LettersInOrder | cve_feed.py:441-456 | the texts 1.1.1, 1.1.1a, 1.1.1b, 1.1.2, read, come in this order, for all numbers and letters |
| CveStore.CveTables.Store | cve_feed.py:245-266 | what one write leaves in both tables, and the count it reports |
| CveStore.CveTables.Sync | cve_feed.py:321-336 | one product's turn: full or incremental by its cursor, which a success sets to the moment it began; nothing changes on a failure |
| CveStore.SinceIs | cve_feed.py:325-326 | changes are asked for from an hour before the cursor, if that is less than 119 days old |
| CveStore.StoredHeld | cve_feed.py:248-263 | after a write every CVE holds the ranges of its last record, or none if rejected; without a record it is as it was, or gone after a full sync; other products are untouched |
| CveStore.StoredItems | cve_feed.py:250-262 | after a write an item is that of the CVE's last record that was not rejected; without one it is as it was |
| CveStore.RejectedHasNone | cve_feed.py:250-262 | after a write a CVE has the ranges of its last record if that was not rejected, and else none |
| CveStore.StoredJoined | cve_feed.py:263 | the items are always exactly the ids that have ranges, so the join drops no row |
| CveStore.IncrementExact | cve_feed.py:245-266 | an increment makes the copy agree with the feed exactly when every CVE whose ranges changed is among its records |
| CveStore.FullReplaces | cve_feed.py:249-263 | an answer with every record whose ranges count makes the copy agree with the feed, whatever it held |
| CveStore.RunMirrors | cve_feed.py:306-337 | after any run of full syncs, overlapping increments and failures, each product holds the ranges of every record seen since it was last read in full, as they were last; these are the ranges of its feed at its last turn that succeeded exactly when nothing that has left the feed since had any |
| CveStore.NothingLeaves | cve_feed.py:306-337 | while no record leaves a feed, nothing else is held |
| CveStore.LeftBehind | cve_feed.py:277-279 | a record that leaves the feed is not among what an increment asks for, and its ranges stay |
| CveStore.WindowsOverlap | cve_feed.py:321-331 | over every run: what the next turn asks for begins an hour before the product's last turn that did not fail, or is everything |
| CveStore.FetchProduct | cve_feed.py:286-303 | the paging loop collects what the pages hold, or nothing when one is refused, whenever there is a last page, without which it would not end |
| CveStore.RefusedIff | cve_feed.py:289-295 | there is no result exactly when the last page asked for was refused |
| CveStore.BoundedEnds | cve_feed.py:286-303 | there is one if no announced total exceeds some bound |
| CveStore.PagingKeepsAll | cve_feed.py:286-303 | with a server that answers from one list, there is a last page and paging returns that list, whatever the page sizes |
| Forest.LineShape | domain_portfolio.py:387-411 | a unit's line ends with itself and begins with the line of each unit above it |
| Forest.LineUnique | domain_portfolio.py:387-411 | there is one lineage at most |
| Forest.PathNamesOne | domain_portfolio.py:446-450 | with names apart on every level, a path names at most one unit |
| Forest.MoveKeepsLines | domain_portfolio.py:611-613 | moving a unit outside its own branch leaves a forest: the branch goes along, the rest stays |
| Forest.RemoveKeepsLines | domain_portfolio.py:622 | removing a unit leaves a forest |
| Merge.RehomeSim | domain_portfolio.py:604 | giving the source's domains to the target keeps every rewritten path |
| Merge.MoveSim | domain_portfolio.py:611-613 | moving a child without a namesake keeps every rewritten path |
| Merge.RemoveSim | domain_portfolio.py:622 | deleting the emptied source loses no rewritten path |
| MergeSteps.ChildSmaller | domain_portfolio.py:603-613 | a child is never above the target or its units, and its branch is smaller: the recursion ends |
| MergeSteps.FoldTwin | domain_portfolio.py:607-610 | after folding a child into its namesake, what holds between two children holds again |
| MergeSteps.FoldEnd | domain_portfolio.py:614-622 | after the last child, only the source's branch has changed, its place is empty, and from a safe state all rewritten paths are kept |
| MergeTheorem.MergeConservesIff | domain_portfolio.py:579-632 | every unit's and every domain's path is rewritten from below the source to below the target, in a forest with unique names and nothing dangling, exactly when the source's branch does not repeat the way from the target to the source |
| MergeTheorem.SafeIff | domain_portfolio.py:593-613 | the condition the row-by-row argument needs is the same one |
| MergeTheorem.ApartNeverRepeats | domain_portfolio.py:593 | with neither unit in the other's branch it always holds |
| MergeTheorem.RepeatsIsLost | domain_portfolio.py:607-622 | when it fails, the place some unit should end at is the one vacated with the source |
| MergeAnchor.AnchorTwin | domain_portfolio.py:604-613 | merging into a unit not above the source leaves no reference dangling, whatever the names: the step for a namesake |
| MergeAnchor.AnchorEnd | domain_portfolio.py:614-622 | and for the end of a fold |
| MergeAnchor.CountTwin | domain_portfolio.py:607-613 | no unit is moved twice, so the counter is the number of units moved |
| MergeCount.RelocatedOut | domain_portfolio.py:607-613 | from a safe state, what has moved so far is below no child still to be handled |
| MergeCount.MoveTwin | domain_portfolio.py:605-613 | the counter over a recursive call: never less than the units that end elsewhere, and from a safe state, the target above the source or not, exactly these |
| MergeFields.MergeSettles | domain_portfolio.py:614-621 | every unit left has its own registrar and contact, or else those of the one unit folded into it, and its own scan interval |
| MergeFold.Twin | domain_portfolio.py:605-610 | all of the above over a recursive call, with one unit fewer for each merged |
| MergeFold.JobTwin | domain_portfolio.py:603-622 | a fold is a run of single statements: moving a child, opening a fold, closing one; the recursive call's run goes on the one around it |
| MergeRun.LeadsOn | domain_portfolio.py:603-622 | runs of such statements follow each other |
| MergeOrders.OrderDecides | domain_portfolio.py:605-622 | one table and two runs of one merge: in the first a unit moves twice and is counted twice, in the second another is left dangling |
| MergeOrders.RowsRepeat | domain_portfolio.py:593-613 | its source's branch does repeat the way |
| Organisation.Descendants | domain_portfolio.py:425-435 | exactly the units reached by going down from the unit; ends on any data, cycles included |
| Organisation.ReachedIffAbove | domain_portfolio.py:425-435 | in a forest these are exactly the units it is above |
| Organisation.AcyclicIff | domain_portfolio.py:425-435 | a lineage exists exactly when no unit's parent is reached by going down from it |
| Changes.AddAcyclicIff | domain_portfolio.py:456-463 | a forest with a new unit is one exactly when its place does not lead back to it |
| Trees.TreeIsForest | domain_portfolio.py:385-422 | on any data, the rows from which going up ends are a forest |
| Trees.TreeBeside | domain_portfolio.py:391-400 | they and the rest make up the table, and neither refers to the other |
| Trees.TreeOfParts | domain_portfolio.py:391-400 | a forest beside rows that lead nowhere is what hangs of the two together |
| Trees.ForestHangs | domain_portfolio.py:391-400 | in a forest that is every row |
| Trees.AddedHangs | domain_portfolio.py:453-463 | on any data, a new unit hangs, and what waited below it with it, exactly when its place does not lead back to it or into a cycle |
| Parts.JoinParts | domain_portfolio.py:453-659 | the two parts of the tables, domains included, can be told apart again after a change of the first |
| Parts.AllHangs | domain_portfolio.py:391-400 | tables without a cycle are listed whole, domains included |
| Parts.AddedWhere | domain_portfolio.py:453-463 | the same with the domains: where the new unit hangs it is the one row more; else it is not seen, nor what waited below it |
| Changes.AddKeepsForest | domain_portfolio.py:456-463 | a new unit has its parent's path and its name; what already waited below its number gets that path in front, and nobody else's path changes |
| Changes.ChangeAcyclic | domain_portfolio.py:536-539 | a unit placed outside its own branch leaves a forest |
| Changes.ChangeBelow | domain_portfolio.py:566-567 | a moved or renamed unit takes its whole branch along: paths below begin with its new path |
| Changes.ChangeElsewhere | domain_portfolio.py:566-567 | and no other path changes |
| Changes.ChangeApart | domain_portfolio.py:562-565 | names stay apart exactly when nobody else has the name at the new place |
| Changes.LiftBelow | domain_portfolio.py:654-658 | when a unit is deleted alone, its name drops out of the paths below it |
| Changes.LiftElsewhere | domain_portfolio.py:654-658 | and no other path changes |
| Changes.LiftApartIff | domain_portfolio.py:656-657 | names stay apart exactly when no unit below has the name of one beside it |
| Changes.LiftWhole | domain_portfolio.py:654-658 | a forest with nothing dangling stays one, domains included |
| Changes.CutElsewhere | domain_portfolio.py:647-653 | deleting a branch changes no other path |
| Changes.CutWhole | domain_portfolio.py:647-653 | nothing dangles afterwards, and names stay apart |
| Groups.Tables.Find | domain_portfolio.py:447-450 | a unit of this name at this level, found exactly when there is one |
| Groups.Tables.Known | domain_portfolio.py:571-576 | what get_group and list_groups show: the rows that hang on units at the top |
| Groups.Tables.Fold | domain_portfolio.py:603-622 | the recursive merge in place, on any data: the run of statements it is, where every row ends, what is kept, both counters, and rows in cycles as they were |
| Groups.Tables.MergeGroup | domain_portfolio.py:579-632 | each refusal and its reason, nothing changed; otherwise the domains counted are those of the branch, one unit fewer and one for each merged, nothing dangling, the conservation law with its exact condition, and rows in cycles as they were. Units moved: on any data the moves of the run the merge is, never fewer than the units that end under another parent; exactly these where nothing repeats or, with nothing dangling before, the target is not above the source |
| Groups.NestedIsLost | domain_portfolio.py:593-622 | merging the middle one of Org, Sales, Sales into the top loses the third |
| Groups.CrowdedClash | domain_portfolio.py:654-658 | deleting one unit lifts its unit beside a namesake |
| Groups.Tables.EnsureGroup | domain_portfolio.py:453-466 | the unit of this name and parent, created without settings exactly when there is none, whatever the parent; it is listed exactly when its place is not in a cycle and does not lead back to its new number |
| Groups.Tables.EnsurePath | domain_portfolio.py:469-486 | ends at a unit with this path, on any data; only rows on the way to it are new; a path that stands is found again and nothing is created |
| Groups.Tables.UpdateGroup | domain_portfolio.py:530-568 | each refusal and its reason, nothing changed; otherwise each of the five fields as asked, or as it was where not asked, and no other row changed; rows in cycles are unknown and stay |
| Groups.Tables.DeleteGroup | domain_portfolio.py:635-659 | with contents the branch and the domains in it go and are counted, and no other row changes; else the unit goes, its units and its domains are in its parent, and nothing else changes; rows in cycles are unknown and stay |
| Groups.StepKeepsForest | domain_portfolio.py:453-659 | every successful call leaves a forest, on the rows that are listed |
| Groups.StepKeepsWhole | domain_portfolio.py:453-659 | and nothing dangling, unless a merge goes into a unit above its source or a unit is put under a missing one |
| Groups.StepKeepsOrder | domain_portfolio.py:453-659 | and names apart, unless a merge repeats its way or a deletion lifts a unit beside a namesake |
| Groups.RunKeeps | domain_portfolio.py:453-659 | the same over every run of calls |
| Listing.ListGroups | domain_portfolio.py:385-422 | on any data, ends and lists every unit that hangs on one at the top, which in a forest is every unit: once, depth first, siblings by name, each branch in one piece, each row right |
| Listing.Walk | domain_portfolio.py:397-419 | the branches below one parent, given what was handed down to it |
| Listing.NearestNext | domain_portfolio.py:402-411 | a value of one's own, or else the one handed down, is the nearest at or above |
| Listing.DescribesNext | domain_portfolio.py:401-419 | path, registrar, contact with the unit that names it, and interval handed on to a child |
| Listing.RowShowsPath | domain_portfolio.py:401-412 | the path a row shows is the unit's |
| Listing.RowShowsSettings | domain_portfolio.py:402-411 | of registrar, contact and interval a row shows the value of the last unit on its line that has one, of contacts only those known |
| Scheduler.DueUntilChecked | domain_portfolio.py:1632-1646 | a due domain stays due until it is looked up, unless its release window closes |
| Scheduler.DueAfterWindow | domain_portfolio.py:1636-1646 | when it closes, exactly when it is still due |
| Scheduler.WindowCanEndDue | domain_portfolio.py:1638-1646 | a domain due inside its release window and not due once the window has closed |
| Scheduler.DueEvery | domain_portfolio.py:1632-1646 | every 55 seconds around the release of a domain to be claimed, hourly after an error or in a phase that passes, six-hourly to be claimed or near the end, else daily |
| Scheduler.DueAtLatest | domain_portfolio.py:1632-1646 | after a day every domain is due, and none before 55 seconds |
| Scheduler.Portfolio.MaybeRun | domain_portfolio.py:1926-1944 | the first thirty due, oldest first; of these an answer is stored, a lookup without one is stamped as an error and keeps the last answer, and one that raises changes nothing; no other row changes |
| Scheduler.PassedOverFor | domain_portfolio.py:1937 | a due domain passed over is passed over for a full batch that stands before it |
| Scheduler.PassedOverMovesUp | domain_portfolio.py:1926-1944 | such a run brings thirty of those ahead of it behind it, and nobody past it |
| Scheduler.TurnComes | domain_portfolio.py:1926-1944 | once the runs have room for all those ahead of the due domain, thirty a run, and for those that overtake it between runs, it is among those looked up |
| Scheduler.OvertakenByAdded | domain_portfolio.py:1926-1944 | while no stamp is set back, only domains added overtake it |
| Scheduler.TurnWithinBound | domain_portfolio.py:1926-1944 | of N domains, one that is due and stays due is looked up within ceil((N + A) / 30) runs, A being those added before its turn |
| Scheduler.RaisingChangesNothing | domain_portfolio.py:1938-1941 | a batch whose lookups all raise leaves everything, and the same rows come first again |
| CrtSh.Lookups.Join | crtsh.py:96-102 | under the lock: join the lookup of the name, or start one |
| CrtSh.Lookups.Answer | crtsh.py:113-114 | the leader's request comes back, or raises |
| CrtSh.Lookups.TakeOut | crtsh.py:116-118 | under the lock: out of the table, if it is still the same lookup |
| CrtSh.Lookups.SetDone | crtsh.py:119-120 | those who wait go on, and the leader returns or raises |
| CrtSh.Lookups.AfterWait | crtsh.py:107-111 | a shared outcome, or another round |
| CrtSh.StepKeepsInv | crtsh.py:94-120 | the invariant of callers, lookups and table holds after every step |
| CrtSh.ProtocolSafe | crtsh.py:59-120 | in every interleaving: one caller at most leads a lookup of a name, nobody can join a lookup already withdrawn, and a failure is shared only from a lookup at least as patient |
| CrtSh.AnswersArrive | crtsh.py:69-120 | over every run: who asked returns its own answer, or raises if its request did; everybody else returns what the leader of the lookup waited for learnt, which is its answer or, only if its request raised, the failure a lookup begins with |
| CrtSh.RoundsBounded | crtsh.py:95-111 | a caller goes round at most once for every less patient caller of the name |
| CrtSh.NeverStuck | crtsh.py:105-119 | while somebody is not finished, a step is possible that is not a wait running out |
| CrtSh.EveryRunEnds | crtsh.py:94-120 | every interleaving of n callers ends after at most n (2n + 5) steps |
| CveAlerts.Alerts.TakeStock | cve_alerts.py:99-107 | what applies to the scan's versions now is known, and nothing else of that monitor |
| CveAlerts.StockIs | cve_alerts.py:99-107 | taking stock: exactly what applies is known, as listed now, nothing is reported, other monitors are left alone, and the same scan is compared from then on |
| CveAlerts.Alerts.Compare | cve_alerts.py:188-198 | report what is new or newly exploited, then remember all of it; an exception in between leaves the report only |
| CveAlerts.Alerts.CompareOne | cve_alerts.py:184-200 | the versions of one monitor in turn, up to where an exception ends it |
| CveAlerts.Alerts.Recheck | cve_alerts.py:162-202 | every active monitor: stock-taking for a scan not noted yet, which an exception undoes, else comparison of versions with current data, up to where an exception ends it |
| CveAlerts.SweptIs | cve_alerts.py:171-174 | a recheck forgets exactly the monitors that no longer exist |
| CveAlerts.ComparedCounts | cve_alerts.py:188-198 | a CVE is reported as new exactly when it becomes known, and as exploited exactly when it applies, is listed now, and was known as not listed |
| CveAlerts.ComparedMissesNothing | cve_alerts.py:190-198 | after a comparison whatever applies is known |
| CveAlerts.ReportedOnce | cve_alerts.py:162-202 | between two stock-takings a CVE of a version is reported as new at most once, exactly when it becomes known, and as exploited exactly as often as its listing is gained while it is known; each once more for every such report that an exception kept from being remembered, of which there are no more than exceptions between report and memory |
| CveAlerts.NowListedIsReported | cve_alerts.py:188-198 | in a recheck that nothing breaks off, a CVE known as not listed that applies and is listed now is in a report as exploited, and known as listed afterwards |
| CveAlerts.StalePassedOver | cve_alerts.py:185-187 | of a version whose data is not current nothing becomes known, and nothing is reported |
| CveAlerts.ToldTwice | cve_alerts.py:194-200 | one such exception, and the CVE is reported as new twice |
| CveAlerts.KnownMeansStockedOrReported | cve_alerts.py:93-119 | known means it applied at the stock-taking or has been reported since, in a report that was remembered |
| CveAlerts.NothingLeftOut | cve_alerts.py:185-198 | after a recheck that no exception ends early for the monitor, whatever applies under current data is known |
| AuditLog.Audit.Record | audit_log.py:92-126 | one row is appended that follows the last, or nothing when the write fails |
| AuditLog.Audit.Verify | audit_log.py:188-207 | intact with all rows counted, or the first row that does not follow, with the reason |
| AuditLog.Audit.PurgeOlderThan | audit_log.py:210-218 | the rows before the moment go, and the purge is recorded if there were any |
| AuditLog.PurgedIs | audit_log.py:210-218 | a purge keeps exactly the entries from its moment on |
| AuditLog.HistoryVerifies | audit_log.py:92-126 | every log that recording and purging produce, stamped in order, verifies |
| AuditLog.RecordsVerify | audit_log.py:92-126 | recording alone needs no order of the stamps |
| AuditLog.LastHashPinsLog | audit_log.py:68-73 | two intact logs of one length and one last hash agree in every hashed column |
| AuditLog.EditIsFound | audit_log.py:202-204 | an edited row is reported at that row |
| AuditLog.RehashedEditIsFound | audit_log.py:199-204 | an edited row with a new hash is reported at the next row; only at the end it goes unseen |
| AuditLog.RemovalFoundIff | audit_log.py:199-201 | removed rows are reported, at the first row after the gap, exactly when rows remain on both sides |
| AuditLog.PurgeIntactIff | audit_log.py:210-218 | a purge keeps the log intact exactly when the rows it keeps lie side by side |
| AuditLog.PurgeInOrder | audit_log.py:210-218 | which they do when stamps rise with the ids |
| AuditLog.PurgeOutOfOrder | audit_log.py:100-112 | three recorded entries, two of them stamped in one order and stored in the other, make a purge read as tampering |
| Lockout.User.RegisterFailure | auth.py:903-923 | a failed code counts, and locks at the threshold |
| Lockout.User.ClearLoginFailures | auth.py:926-930 | counter and lock are cleared |
| Lockout.User.ResetPassword | app.py:5926-5948 | a new password set by an administrator clears counter and lock, locked or not |
| Lockout.User.Attempt | auth.py:967-1006 | refused exactly before the lock ends, and then nothing changes; a wrong password counts, a right one clears |
| Lockout.WindowBound | auth.py:885-1006 | a window no longer than the lockout holds at most the maximum of wrong attempts that were looked at, one fewer once more for each right one inside it, and once more for each reset |
| Lockout.BoundIsReached | auth.py:885-1006 | for every number of right attempts and resets some run reaches the bound |
| Lockout.MaximumExceeded | auth.py:926-930 | one right password lets a window hold more wrong ones than the maximum |
| Lockout.CounterBelowMaximum | auth.py:911-917 | the stored counter stays below the maximum |
| Lockout.MaximumLocks | auth.py:911-918 | the maximum can be reached, and then the account is locked for the whole lockout |
| RateLimit.Limiter.Check | app.py:4157-4177 | accepted exactly when fewer than the maximum of remembered times lie in the window; only an accepted call is remembered |
| RateLimit.StoreIsAccepted | app.py:4173-4176 | dropping old times forgets nothing that can still count |
| RateLimit.RefusedIff | app.py:4173-4175 | refused exactly when the maximum was accepted within the window before |
| RateLimit.WindowBound | app.py:4157-4177 | any window of the set length holds at most the maximum of accepted calls of one bucket and address |
| RateLimit.KeysApart | app.py:4170-4172 | what other buckets and addresses do makes no difference |
| RateLimit.RefusedLeavesNoTrace | app.py:4174-4176 | a refused call postpones nothing |

## Left out

- Groups.Tables.Fold: the fields a unit has beside name, parent, registrar, contact and interval (notification addresses, creation time) are not modelled; a merge does not touch them.
- Groups.Tables.UpdateGroup: cleaning of names and of notification addresses, and their errors, are not modelled: names are taken as cleaned, and compared without regard to case as the table does; looking for a namesake and writing are one step.
- Groups.Tables.EnsurePath: splitting the text of a path into its parts and cutting a part at 80 characters are not modelled.
- Groups.RunKeeps: the calls of a run come one after the other; two at once are not modelled, and a new unit that is not listed is not a step.
- Listing.ListGroups: the order of siblings with equal names is left open; notification addresses and the people behind the contacts are not listed.
- Evidence.ScoreMeaning: rounding to three decimals is that of exact fractions, half to even; binary floating point, trimming and lower-casing of names are not modelled.
- CveFixes.FixReleases: upper-casing of the ids asked for is not modelled.
- CveText.ReadWritten: digits, letters and white space outside ASCII are not modelled.
- CveStore.RunMirrors: rests on a feed in which a new or changed record carries its time of change, and which answers with every record changed in the window asked for; reading ranges out of a CVE record is a parameter.
- CveStore.FetchProduct: asks for a last page somewhere; against a service that always announces more the loop would not end, and nothing is said of it.
- CveStore.CveTables.Sync: the recorded attempt time, counts and error texts are not modelled.
- CrtSh.ProtocolSafe: the cache asked before the first round, `force`, and the stored fallback for a failed lookup are not modelled; a request's outcome is arbitrary.
- CveAlerts.ReportedOnce: the text and severity of an event are not modelled.
- Scheduler.TurnWithinBound: rests on lookups that come back, run times that rise and stamps that nothing sets back; what a lookup finds and reports is arbitrary.
- AuditLog.LastHashPinsLog: rests on hashes that never collide; JSON and SHA-256 are not modelled, and of the hashed columns only time, actor, action and details are named: the others would be treated alike.
- Lockout.User.Attempt: a malformed stored lock time, unknown or disabled accounts and accounts without a password are not modelled.
- RateLimit.Limiter.Check: the limits are fixed over a run, and two calls at once are not modelled.
- SQLite, locks as such, threads, JSON, HTTP, DNS, RDAP, templates, routes and notifications are outside the model; transactions are single steps.
- CSV, paste and Excel import and export of domains, settings, contacts, grades and texts would add only easy members.
- The other file formats of `file_scan.py` and the version readers of `software_advisories.py` are not part of this model; a shown version has at least two numbers.
