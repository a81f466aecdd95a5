# Verified models of gitoxide's history, matching and caching algorithms

This project models the parts of gitoxide that carry the most intricate logic and proves what they promise, for all
inputs, all histories and all runs. `dafny verify dfyconfig.toml` checks everything; nothing is assumed.

What is modelled, module by module:

- `Options`, `Digraph`, `History`: finite commit histories with possibly missing parents, reachability, the commit graph with its
  per-commit data, and the priority queue as a multiset whose pop returns some item of maximal key.
- `PaintDown`, `Redundancy`, `MergeBase`: the merge-base search. A worklist paints the history from both sides, then walks
  along first parents prune the candidates. No best common ancestor is ever lost, whatever the commit dates and generation
  numbers say, and without clock skew exactly the best ones are returned.
- `Negotiation`, `Consecutive`, `Ttl`, `Skipping`: the two fetch negotiators as objects that share flags with the commit
  graph and keep a counter by hand. Ghost fields record the tips, what is known, what was acknowledged, what was announced
  and what ever entered the queue, so that the theorems speak about every run.
- `Describe`: the walk that finds the closest name of a commit, its early exits and its candidate limit.
- `GlobMatching` (in `Wildmatch.dfy`), `GlobPattern`, `GlobText`: the backtracking matcher against a declarative meaning of patterns,
  the pattern parser, and the shortcuts that avoid the matcher. What a bracket expression does to the matcher is an
  arbitrary function, so that the shortcuts are right whatever brackets mean. `GlobText` says on the text of patterns what
  stars, question marks and escapes match, and that the matcher finds exactly that.
- `CommitGraphFiles`: chains of commit-graph files, their lookups and their verification.
- `PathStack`: the stack that keeps a delegate informed about the directories that lead to the current path.
- `Snapshot`: the shared file snapshot as a state machine, one step per lock operation, time stamp, read or write.
- `Connectivity`: the connectivity check over commits, trees and blobs.
- `Ewah`: compressed bitmaps, as the format of git's bitmap files describes them.
- `Attributes`, `Pathspec`, `PathspecParser`, `PathspecText`, `PathspecRoundTrip`: path specifications. `Pathspec` defines
  what text means, `PathspecParser` is the parser and printer that work byte by byte, `PathspecText` tells on the text what
  each keyword says, `PathspecRoundTrip` relates printing to parsing.

Loops over mutable state are methods with invariants; methods are proved against functions and predicates about which the
theorems are stated. Values of the source that depend on the outside (the object database, file times, callbacks, the
delegate) are parameters or recorded fields.

Where the code and its comments disagree, the code is modelled:

- Merge bases are not always only the topologically most recent common ancestors, nor sorted from best to worst, because
  pruning follows only first parents. `MergeBase.RedundantBaseIsReturned` gives a history in which the answer lists a commit
  and after it a descendant of it; `MergeBase.MergeBase` says exactly when the answer holds only best ones. Without clock
  skew it always does.
- The connectivity check reports missing trees to its callback instead of returning an error.
- A path stack that is asked to go from a file to a path below it that is not normalized fails after it has told its
  delegate about a directory, and from then on the two disagree: `PathStack.Stack.MakeRelativePathCurrent` says exactly
  when, and `PathStack.Stray` gives a run.
- A literal path specification that ends in a slash does not survive printing: `PathspecRoundTrip.LiteralComesBack` says
  exactly when, and `PathspecRoundTrip.LiteralSlashIsLost` gives one.
- The glob matcher gives up on patterns that need 64 nested calls: `GlobMatching.FoundIffMatches` says exactly when it
  misses a match, and `GlobMatching.TooManyStars` gives a family of patterns on both sides of the limit.
- The stride of skipping negotiation overflows 16 bits behind a chain of 81913 commits, and wraps around in builds without
  overflow checks: `Skipping.StrideWraps` gives a negotiation in which it does, and `Ttl.PaceHandedOn` says that no shorter
  chain suffices.

## Model

| member | source | states |
|---|---|---|
| `History.CommitGraph.GetOrInsert` | gix-revwalk/src/graph/mod.rs:230-308 | a present commit is loaded with default data unless it is loaded already; a missing one is skipped |
| `History.PopTop` | gix-revwalk/src/queue.rs:65-80 | a pop removes one item of maximal key and nothing else |
| `History.FirstPresentIsFirst` | gix-revision/src/merge_base.rs:135-147 | the first present parent is present, and none before it is |
| `PaintDown.HandDown` | gix-revision/src/merge_base.rs:201-208 | every present parent receives the flags, and exactly the commits whose flags changed are queued again |
| `PaintDown.OlderIsBelow` | gix-revision/src/merge_base.rs:214-252 | the queue goes by generation, a missing one being the largest of 32 bits, and then by date |
| `PaintDown.VisitTop` | gix-revision/src/merge_base.rs:184-209 | a step keeps the painting invariant for any pop order, is one step of the state machine, and either sets a flag or shortens the queue, so painting ends |
| `PaintDown.StepProgress` | gix-revision/src/merge_base.rs:200-208 | flags are never cleared, and a commit is queued again only if a flag was added |
| `PaintDown.ColorsArrive` | gix-revision/src/merge_base.rs:184-209 | a common ancestor above which nothing is queued has both colors |
| `PaintDown.BestAreListed` | gix-revision/src/merge_base.rs:184-211 | when only stale commits are queued, every common ancestor that lies below no other one is in the result list |
| `PaintDown.PoppedIsBest` | gix-revision/src/merge_base.rs:184-209 | if every parent is older than its child, by generation and then by date, a commit popped with both colors and not stale lies below no other common ancestor |
| `PaintDown.BestExists` | gix-revision/src/merge_base.rs:43-58 | in an acyclic history every common ancestor is a best one or lies below one |
| `PaintDown.PaintDownToCommon` | gix-revision/src/merge_base.rs:166-212 | a whole run of the painting steps, from the seeds until only stale commits are queued; only common ancestors are listed, none twice, all best ones among them; without clock skew only the best ones, best first |
| `Redundancy.AdvanceMinGen` | gix-revision/src/merge_base.rs:115-126 | the minimum generation only moves past candidates that are stale |
| `Redundancy.PushFirstParent` | gix-revision/src/merge_base.rs:135-147 | the walk goes to the first present parent and to no other, unless that one is stale |
| `Redundancy.DropResult` | gix-revision/src/merge_base.rs:107-127 | the count stays equal to the number of candidates that still carry the result flag |
| `Redundancy.Descend` | gix-revision/src/merge_base.rs:129-151 | each step marks one more commit stale or shortens the stack, so the walk ends |
| `Redundancy.WalkFrom` | gix-revision/src/merge_base.rs:101-153 | a walk keeps all invariants and marks its start stale |
| `Redundancy.Prepare` | gix-revision/src/merge_base.rs:69-97 | all candidates carry the result flag, all their present parents are starts, and nothing is stale |
| `Redundancy.OneLeft` | gix-revision/src/merge_base.rs:101-114 | stopping early with one candidate left drops exactly the redundant ones |
| `Redundancy.AllWalked` | gix-revision/src/merge_base.rs:101-153 | if all walks ran, every candidate on a first-parent walk from a parent of a candidate is stale, despite the generation cut-off |
| `Redundancy.RemoveRedundant` | gix-revision/src/merge_base.rs:62-164 | only candidates that another candidate leads to are dropped, and in a history without cycles, whatever the generation numbers, each of them lies strictly below one that is kept; with sane generation numbers exactly those on first-parent walks from parents of candidates |
| `MergeBase.MergeBase` | gix-revision/src/merge_base.rs:43-58 | for any order and clock skew: no answer exactly if there is no common ancestor; only common ancestors, none twice, every best one; exactly the best ones, none older than one after it, if every parent has a lower generation than its child, or the same and an earlier date; with sane generation numbers the answer is what painting lists without all that lies on first-parent walks, and it holds only best ones if and only if everything else that was painted lies there |
| `MergeBase.SelfIsOnlyBest` | gix-revision/src/merge_base.rs:49-51 | a commit compared with itself is its own only best common ancestor, so answering without a walk is right |
| `MergeBase.PruningKeepsBest` | gix-revision/src/merge_base.rs:53-57 | dropping any redundant candidates loses no best common ancestor and leaves something if anything was found |
| `Redundancy.DroppedLieBelowKept` | gix-revision/src/merge_base.rs:60-164 | whatever redundant candidates are dropped, each is a strict ancestor of one that is kept |
| `MergeBase.BestIffShadowed` | gix-revision/src/merge_base.rs:60-164 | pruning leaves only best common ancestors if and only if every other painted commit is on a first-parent walk from a parent of a painted one |
| `MergeBase.SkewedIsPainted` | gix-revision/src/merge_base.rs:166-212 | in a small history with a skewed clock every run of the painting, however ties are broken, lists a commit and then a descendant of it |
| `MergeBase.RedundantBaseIsReturned` | gix-revision/src/merge_base.rs:43-58 | in that history the call itself answers with both, the redundant one first |
| `Negotiation.WaitingAfter` | gix-negotiate/src/consecutive.rs:28-34 | how the number of waiting commits changes when the flags of one commit change |
| `Negotiation.CoveredClosed` | gix-negotiate/src/lib.rs:19-24 | what is common because of acknowledged and known commits is closed under parents |
| `Consecutive.QueueOne` | gix-negotiate/src/consecutive.rs:22-39 | queueing a commit keeps flags truthful and the counter exact |
| `Consecutive.CommonOne` | gix-negotiate/src/consecutive.rs:41-88 | learning that a commit is common keeps the counter exact and never takes it below zero |
| `Consecutive.PopOne` | gix-negotiate/src/consecutive.rs:109-124 | a popped commit was not announced before, and the counter stays exact |
| `Consecutive.SpreadRound` | gix-negotiate/src/consecutive.rs:60-85 | each round handles one commit: whatever became common waits in the queue, or has been seen and has common parents unless it is too far away |
| `Consecutive.StillReached` | gix-negotiate/src/consecutive.rs:60-85 | only what lies below the start through commits that were seen becomes common, and without an unlimited search only in one step or two |
| `Consecutive.ReachedIsNear` | gix-negotiate/src/consecutive.rs:66 | one step or two from the start are the parents of a seen start and the parents of its seen parents |
| `Consecutive.SpreadEnds` | gix-negotiate/src/consecutive.rs:60-85 | once the queue is empty, COMMON has spread as far as it was asked to and no further |
| `Consecutive.SpreadHands` | gix-negotiate/src/consecutive.rs:126-140 | a parent of a common commit is common, or was seen and has common parents; and nothing else is seen without being common |
| `Consecutive.Algorithm.AddToQueue` | gix-negotiate/src/consecutive.rs:22-39 | exactly the marks are added, a commit enters the queue exactly if it was not seen before, and the counter follows |
| `Consecutive.Algorithm.SpreadToParents` | gix-negotiate/src/consecutive.rs:66-84 | exactly the present parents become common, those that were not are queued, and each round makes progress |
| `Consecutive.Algorithm.MarkCommon` | gix-negotiate/src/consecutive.rs:41-88 | spreading ends and keeps the invariant; parents of the start are common if it was seen, and so are parents of everything seen that became common, without limit or only of the parents of the start; nothing became common but the start and what lies below it through seen commits, at most two steps away if there is a limit; what became common unseen is queued |
| `Consecutive.Algorithm.KnownCommon` | gix-negotiate/src/consecutive.rs:92-101 | an unseen commit is queued as a common reference and its parents become common; nothing becomes common but its parents and the parents of seen ones; a seen one changes nothing; the run invariant holds with one more known commit |
| `Consecutive.Algorithm.AddTip` | gix-negotiate/src/consecutive.rs:103-105 | the commit is seen, nothing else changes, and the run invariant holds with one more tip |
| `Consecutive.Algorithm.HandOn` | gix-negotiate/src/consecutive.rs:126-140 | all present parents of a popped commit are seen afterwards; if it is common, they are common, or were seen and have common parents, and only what lies below it becomes common; if it is not, nothing does |
| `Consecutive.Algorithm.Visit` | gix-negotiate/src/consecutive.rs:109-140 | a visit pops one more commit, keeps the walk complete, announces the commit exactly if it is not common, and makes nothing common unless the commit is or is a common reference |
| `Consecutive.Algorithm.NextHave` | gix-negotiate/src/consecutive.rs:107-146 | an answer is new, was not known to be common, is no older than anything that was queued before and stays queued, and is recorded; without one the counter is zero |
| `Consecutive.Algorithm.InCommonWithRemote` | gix-negotiate/src/consecutive.rs:148-154 | tells whether the commit was known to be common; if not, it becomes common and, if it was seen, its parents and the parents of seen ones; nothing else does |
| `Consecutive.Complete` | gix-negotiate/src/consecutive.rs:22-155 | once there is no answer, every commit reachable from a tip was announced, or is an ancestor of something acknowledged, or a strict ancestor of something known |
| `Consecutive.Sound` | gix-negotiate/src/consecutive.rs:41-154 | what is flagged common is common because of what was learned; over any sequence of calls exactly the seen commits entered the queue, each of them once; an announced commit is not queued any more; nothing unrelated is announced |
| `Consecutive.AnnouncesWholeHistory` | gix-negotiate/src/consecutive.rs:107-146 | if nothing is common, exactly the history of the tips is announced |
| `Ttl.StrideLimit` | gix-negotiate/src/skipping.rs:99-103 | which stride is the first whose successor does not fit into 16 bits, and how many commits it takes to get there |
| `Ttl.PaceHandedOn` | gix-negotiate/src/skipping.rs:99-109 | unless a chain of more than 81913 commits exists, computing the pace of a parent does not overflow, and the pace is earned by a descending chain of commits |
| `Ttl.PaceWithin` | gix-negotiate/src/skipping.rs:99-109 | which pace a chain of a given length leads to, as long as nothing overflows |
| `Ttl.PaceOverflows` | gix-negotiate/src/skipping.rs:99-103 | behind a chain of exactly that length the next stride overflows and becomes shorter |
| `Skipping.QueueOne` | gix-negotiate/src/skipping.rs:22-33 | queueing counts a commit even if it is common already, and the surplus is accounted for |
| `Skipping.Pay` | gix-negotiate/src/skipping.rs:45-50 | taking a commit that became common off the count never underflows |
| `Skipping.PopOne` | gix-negotiate/src/skipping.rs:138-144 | a popped commit was not announced before, and the count does not underflow |
| `Skipping.SpreadRound` | gix-negotiate/src/skipping.rs:45-70 | whatever was seen and became common waits in the queue, or all its loaded parents are common |
| `Skipping.StillCaused` | gix-negotiate/src/skipping.rs:45-70 | apart from the start, only loaded parents of commits that were seen and became common themselves become common |
| `Skipping.Algorithm.AddToQueue` | gix-negotiate/src/skipping.rs:22-33 | exactly the marks are added to an unseen commit, it enters the queue, and the counter follows |
| `Skipping.Algorithm.MarkCommon` | gix-negotiate/src/skipping.rs:35-73 | spreading ends, all commits that became common are taken off the count, all loaded parents of whatever was seen and became common are common, and nothing else becomes common |
| `Skipping.Algorithm.PushParent` | gix-negotiate/src/skipping.rs:75-112 | tells whether the parent was still to be popped; if so it becomes common below a common or advertised commit, and otherwise takes on the pace that follows unless it has a longer stride |
| `Skipping.Algorithm.SetPace` | gix-negotiate/src/skipping.rs:99-109 | a parent that was not popped keeps its pace or takes on the one that follows |
| `Skipping.Algorithm.PushParents` | gix-negotiate/src/skipping.rs:150-157 | tells whether some parent was still to be popped; all those have been handed on to, only parents were newly seen, and nothing becomes common below a commit that is neither common nor advertised |
| `Skipping.Algorithm.Visit` | gix-negotiate/src/skipping.rs:138-161 | a commit is announced exactly if it is not common and its time to live is used up or all its parents were popped before; all other parents are handed on to |
| `Skipping.Algorithm.NextHave` | gix-negotiate/src/skipping.rs:136-167 | an answer is new, was not known to be common, is no older than anything that was queued before and stays queued, and is recorded; without one nothing waits that is not common |
| `Skipping.Algorithm.KnownCommon` | gix-negotiate/src/skipping.rs:116-124 | an unseen commit is queued as advertised, nothing else changes, and the run invariant holds with one more known commit |
| `Skipping.Algorithm.AddTip` | gix-negotiate/src/skipping.rs:126-134 | an unseen commit is queued, nothing else changes, and the run invariant holds with one more tip |
| `Skipping.Algorithm.InCommonWithRemote` | gix-negotiate/src/skipping.rs:169-181 | tells whether the commit was known to be common; it becomes common, and this spreads through all that was seen below it |
| `Skipping.SeenIsAnswered` | gix-negotiate/src/skipping.rs:136-167 | once nothing waits, every seen commit has an ancestor, or is itself one, that was announced or is common |
| `Skipping.Coverage` | gix-negotiate/src/skipping.rs:22-182 | once there is no answer, every commit reachable from a tip or a known commit lies at or below a common commit, or leads down to one that was announced or is common |
| `Skipping.Sound` | gix-negotiate/src/skipping.rs:35-181 | what is flagged common is common because of what was learned; over any sequence of calls exactly the seen commits entered the queue, each of them once; an announced commit is not queued any more |
| `Skipping.CounterIsUpperBound` | gix-negotiate/src/skipping.rs:22-73 | the counter is the number of waiting commits plus exactly the commits that were common before they were queued |
| `Skipping.PaceIsHandedOn` | gix-negotiate/src/skipping.rs:92-109 | in any history and run, overflow included, the time to live never exceeds the stride it was drawn from, and every pace follows that of a popped child; a seen commit that is neither common nor passed in has such a child |
| `Skipping.PaceIsEarned` | gix-negotiate/src/skipping.rs:99-109 | unless a chain of more than 81913 commits exists, strides follow 0, 1, 2, 4, 7, 11 and so on, and a commit is at a step of one only with a descending chain above it that holds all commits of the strides before and of the steps used up |
| `Skipping.NegotiateLine` | gix-negotiate/src/skipping.rs:126-167 | a whole negotiation over a line of commits, nothing being common, visits all of them, and their paces follow the sequence |
| `Skipping.StrideWraps` | gix-negotiate/src/skipping.rs:99-103 | over a line of 81914 commits the stride overflows at the last but one, and the last one gets a shorter stride |
| `Describe.PushParents` | gix-revision/src/describe.rs:306-325 | all present parents, or the first present one only, receive the bits, and new ones are queued with their date |
| `Describe.CountCommit` | gix-revision/src/describe.rs:232-237 | exactly the candidates without a bit on the commit count it |
| `Describe.BestBits` | gix-revision/src/describe.rs:239-256 | the bits of all candidates with the smallest counter are collected |
| `Describe.First` | gix-revision/src/describe.rs:279-283 | the chosen candidate has the smallest counter, and among those it was found first |
| `Describe.NewestIsReady` | gix-revision/src/describe.rs:210 | if dates decrease, the newest queued commit has no descendant left to be visited |
| `Describe.StopSettles` | gix-revision/src/describe.rs:239-260 | if all that is left lies below a candidate, its counter is final |
| `Describe.SettledIsClosest` | gix-revision/src/describe.rs:239-260 | a final counter that is smallest is no larger than the distance to any name |
| `Describe.GaveUpMeansMany` | gix-revision/src/describe.rs:224-227 | giving up means that there are more names in the history than candidates |
| `Describe.Search` | gix-revision/src/describe.rs:203-263 | on every exit the counters are exact for what was visited, and the best candidates are settled unless the limit was hit |
| `Describe.FinishDone` | gix-revision/src/describe.rs:337-343 | once all that is queued lies below the candidate, its counter is the size of the set difference |
| `Describe.FinishDepth` | gix-revision/src/describe.rs:327-351 | the completed counter is the number of commits in the history of the input but not of the candidate |
| `Describe.Describe` | gix-revision/src/describe.rs:161-304 | no name exactly if there is no named ancestor, and then all commits were seen; if the lowest 32 bits of commit times fall towards parents, the depth is the number of commits reachable from the input but not from the named one, and no name is closer unless the search gave up, which it does only if there are more names than candidates, of which there are at most 32 |
| `Describe.ClosestByTime` | gix-revision/src/describe.rs:161-304 | in a history in which parents are older than their children and times fit into 32 bits, the answer is the distance to a name, and no name is closer unless there are more names than candidates |
| `GlobMatching.TokenStep` | gix-glob/src/wildmatch.rs:73-80 | one pattern byte and one text byte can be taken off together, for this position and all later ones |
| `GlobMatching.EscapeStep` | gix-glob/src/wildmatch.rs:61-72 | an escaped byte and the same text byte can be taken off together, for this position and all later ones |
| `GlobMatching.SlashStep` | gix-glob/src/wildmatch.rs:127-135 | narrow stars before a slash can be resolved by jumping to the next slash |
| `GlobMatching.RightLoop` | gix-glob/src/wildmatch.rs:148-181 | the loop behind stars finds a match of the rest if and only if stars can reach one, and its aborts rule out exactly what they claim |
| `GlobMatching.RightAtStars` | gix-glob/src/wildmatch.rs:81-182 | the answer after a run of stars is right, including runs between slashes that may stand for no directory |
| `GlobMatching.RightFrom` | gix-glob/src/wildmatch.rs:39-182 | a match is a match of the declarative relation and stays within the limit of nested calls; within the limit every other answer rules a match out, here or at later positions as well |
| `GlobMatching.FoundIffMatches` | gix-glob/src/wildmatch.rs:365-371 | without unescaped brackets a match is found if and only if there is one and the pattern costs fewer than 64 nested calls |
| `GlobMatching.TooManyStars` | gix-glob/src/wildmatch.rs:37-42 | n copies of a star and a letter match n letters, but the match is found only if n is below 64 |
| `GlobMatching.Wildmatch` | gix-glob/src/wildmatch.rs:365-371 | computes the answer of the matching function for any brackets; without unescaped brackets the result is true if and only if the value matches and the pattern costs fewer than 64 nested calls, in every mode |
| `GlobMatching.MatchIsDivision` | gix-glob/src/wildmatch.rs:39-182 | in every mode, escapes included, a text matches if and only if it can be divided into one piece for each part of the pattern such that each piece fits: a byte, any byte but perhaps a slash, any text but perhaps slashes, whole directories or none |
| `GlobPattern.FirstWildcardPos` | gix-glob/src/parse.rs:51-53 | the first wildcard is found, or there is none |
| `GlobPattern.Parse` | gix-glob/src/parse.rs:12-49 | there is no pattern exactly for empty or blank text; otherwise the mode says exactly what the text starts and ends with, the parsed facts hold, and displaying the pattern gives back the text |
| `GlobPattern.EndsWithRight` | gix-glob/src/pattern.rs:129-142 | comparing a suffix gives the answer of the matcher, whatever brackets mean |
| `GlobPattern.PrefixFound` | gix-glob/src/pattern.rs:143-155 | the matcher finds nothing that does not start with the literal prefix, whatever brackets mean and however deep it recurses |
| `GlobPattern.LiteralTail` | gix-glob/src/pattern.rs:156-162 | a pattern without wildcards matches exactly itself |
| `GlobPattern.MatchValue` | gix-glob/src/pattern.rs:126-164 | for every parsed pattern, brackets included, every value and every mode, the answer with all shortcuts is that of the matcher |
| `GlobText.NarrowStars` | gix-glob/src/wildmatch.rs:81-182 | with path rules, a single star, or stars next to anything but slashes and ends of the pattern, stand for text without slashes, and the matcher finds exactly that |
| `GlobText.DoubleStarAtEnd` | gix-glob/src/wildmatch.rs:90-124 | with path rules, a directory with two or more stars behind its slash matches exactly what begins with that directory and slash |
| `GlobText.DoubleStarAlone` | gix-glob/src/wildmatch.rs:90-124 | two or more stars alone match everything |
| `GlobText.DoubleStarBetween` | gix-glob/src/wildmatch.rs:90-124 | two or more stars behind a slash or at the start, and before a slash, stand for whole directories or none |
| `GlobText.DoubleStarEscaped` | gix-glob/src/wildmatch.rs:96-99 | an escaped slash bounds the stars as well but stays |
| `GlobText.StarsCoverAll` | gix-glob/src/wildmatch.rs:81-182 | without path rules stars stand for any text |
| `GlobText.QuestionMark` | gix-glob/src/wildmatch.rs:73-80 | a question mark stands for one byte, with path rules for any but a slash |
| `GlobText.EscapedByte` | gix-glob/src/wildmatch.rs:61-72 | an escaped byte, even a bracket, stands for itself |
| `GlobText.PlainText` | gix-glob/src/wildmatch.rs:39-60 | text without special characters matches itself, up to the case of ASCII letters if case is ignored |
| `CommitGraphFiles.LookupByPos` | gix-commitgraph/src/access.rs:67-82 | every position below the number of commits is found, and it is the commit at that place of all files put together |
| `CommitGraphFiles.LookupInFile` | gix-commitgraph/src/file/access.rs:79-98 | for any fan that stays within the file, what is found has the id and lies where the fan says; in a sorted file nothing is missed there; with a right fan an id is found if and only if it is in the file |
| `CommitGraphFiles.LookupById` | gix-commitgraph/src/access.rs:52-65 | what is found has the id; if all files are sorted and have a right fan an id is found if and only if some file has it, and with unique ids this is the inverse of reading the id at a position |
| `CommitGraphFiles.CheckCommit` | gix-commitgraph/src/verify.rs:131-160 | gives the first failure in order: a parent outside this file and those before it, parents that cannot be read, a generation other than one more than the largest of the parents, the caller |
| `CommitGraphFiles.Traverse` | gix-commitgraph/src/file/verify.rs:71-136 | succeeds exactly if checksum and file name are right, ids are strictly increasing, trees are set and every commit passes; otherwise the error says which of the two is wrong, or what the first bad commit is rejected for; gives the largest generation and the parent counts |
| `CommitGraphFiles.CheckInOrder` | gix-commitgraph/src/file/verify.rs:93-119 | extends a checked part of a file by one commit: it passes if and only if the longer part is sorted, verified and accepted; otherwise the whole file fails, with this as its first failure, and the error says what is wrong with the commit |
| `CommitGraphFiles.ErrorsTell` | gix-commitgraph/src/file/verify.rs:93-119 | each error means what it says: the null id, an id that is not above the one before, the null tree, a generation above the largest, a parent out of range, parents that cannot be read, a wrong generation, or the caller |
| `CommitGraphFiles.GenerationIsRight` | gix-commitgraph/src/verify.rs:146-155 | the computed generation is one without parents, and otherwise one more than the largest one of a parent, or the largest that can be represented |
| `CommitGraphFiles.CheckBases` | gix-commitgraph/src/verify.rs:101-127 | succeeds exactly if the base files are those the file names |
| `CommitGraphFiles.VerifyIntegrity` | gix-commitgraph/src/verify.rs:77-202 | succeeds exactly if all files are verified and all commits accepted, and otherwise fails for what the first bad file is rejected for; on success the statistics are right, and if a longest path is given the graph has no cycle and that is the number of edges of its longest parent chain |
| `CommitGraphFiles.PathBounded` | gix-commitgraph/src/verify.rs:146-155 | no parent chain is longer than the verified generation of its start |
| `CommitGraphFiles.PathExists` | gix-commitgraph/src/verify.rs:146-155 | some parent chain is exactly as long as the verified generation of its start |
| `CommitGraphFiles.LongestPath` | gix-commitgraph/src/verify.rs:197-201 | verified generations that can be represented imply a graph without cycles whose longest parent chain has one edge less than the largest generation |
| `PathStack.Stack.CountMatching` | gix-fs/src/stack.rs:76-86 | the longest common prefix of the current and the new path, so subtracting it never underflows |
| `PathStack.Stack.PopTo` | gix-fs/src/stack.rs:88-96 | after leaving components the delegate knows exactly the directories that lead to what remains |
| `PathStack.Stack.PushFrom` | gix-fs/src/stack.rs:102-129 | each new component is announced once, the last one as such, and the delegate follows |
| `PathStack.Stack.MakeRelativePathCurrent` | gix-fs/src/stack.rs:65-130 | the current path becomes the requested one; the directories pushed and not popped are root and the proper prefixes, and the path itself if it is a directory, if and only if the call did not go from a file to a component below it that is not normal; when it fails |
| `PathStack.Stray` | gix-fs/src/stack.rs:98-111 | going from a file `a` to `a/..` fails and leaves the delegate with a directory that the stack does not know of |
| `PathStack.VisitAll` | gix-fs/src/stack.rs:47-130 | every run over non-empty normalized paths succeeds and leaves the delegate with root, once, and the directories of the last path |
| `Snapshot.InvKept` | gix-fs/src/snapshot.rs:84-152 | every step of every call, and every replacement of the file, keeps the invariant: stored content was opened after its stamp was read |
| `Snapshot.ResultsAreRecent` | gix-fs/src/snapshot.rs:99-152 | in every interleaving a call returns content no older than the file was when the call began |
| `Snapshot.StoredIsStamped` | gix-fs/src/snapshot.rs:81-91 | in every interleaving what is stored is no older than its stamp |
| `Snapshot.ResultsNeverGoBack` | gix-fs/src/snapshot.rs:99-152 | of two calls that do not overlap, the later one never returns something older |
| `Snapshot.CallAlone` | gix-fs/src/snapshot.rs:81-152 | a call that begins when all others have finished, and is not disturbed, ends within eight steps with the content of the file |
| `Snapshot.FreshIsRead` | gix-fs/src/snapshot.rs:106-131 | if what is stored is as recent as the file, a call returns it after reading the time, without the write lock, and leaves it stored |
| `Connectivity.Checker.CheckTree` | gix-fsck/src/lib.rs:73-96 | a missing tree is reported; otherwise each blob is seen, reported if missing, and each tree is queued |
| `Connectivity.Checker.CheckCommit` | gix-fsck/src/lib.rs:50-69 | the walk ends with all that the commit leads to seen, and fails exactly if the commit is new and cannot be found |
| `Connectivity.SeenIsScope` | gix-fsck/src/lib.rs:50-69 | between calls, exactly what is reachable from the commits given so far was seen |
| `Connectivity.ReportsAreExact` | gix-fsck/src/lib.rs:50-106 | over any sequence of calls, exactly the missing trees and blobs that are reachable from the given commits were reported |
| `Connectivity.ReportNext` | gix-fsck/src/lib.rs:73-106 | no object is reported twice |
| `Ewah.SetBitsExact` | gix-bitmap/src/ewah.rs:56-59 | the indices of the naive expansion are exactly the set bits, strictly increasing |
| `Ewah.FieldsOfWord` | gix-bitmap/src/ewah.rs:97-116 | a run-length word put together from a bit, a length and a number of literal words has these as its fields |
| `Ewah.LiteralBitsOfWord` | gix-bitmap/src/ewah.rs:78-83 | the bits of a literal word come lowest first |
| `Ewah.ForEachInChunk` | gix-bitmap/src/ewah.rs:63-86 | a run-length word and its literal words stand for the run followed by the literal bits |
| `Ewah.ForEachSetBit` | gix-bitmap/src/ewah.rs:60-89 | the callback gets exactly the set bits of the naive expansion, in order, up to and including the first one at which it stops |
| `Ewah.DecodesUnique` | gix-bitmap/src/ewah.rs:13-50 | data determines the bitmap and the remainder |
| `Ewah.Layout` | gix-bitmap/src/ewah.rs:13-50 | where each number is in the data, by byte offsets |
| `Ewah.FirstByteCounts` | gix-bitmap/src/lib.rs:18-21 | the first byte of a number is the most significant one |
| `Ewah.Decode` | gix-bitmap/src/ewah.rs:13-50 | decoding gives a bitmap and a remainder exactly if the data is that bitmap in big-endian form followed by the remainder, and otherwise the error names the first part that the data is too short for |
| `Attributes.AttrRoundTrip` | gix-attributes/src/assignment.rs:34-53 | printing an assignment and parsing it again gives it back if and only if its name is valid and not missing |
| `Attributes.FieldMeans` | gix-attributes/src/parse.rs:52-66 | a minus sign unsets, an exclamation mark makes unspecified, an equals sign gives a value unless there is such a mark, and a name alone sets |
| `Attributes.ParsedIsWritable` | gix-attributes/src/parse.rs:52-80 | every field that parses stands for an assignment that can be printed |
| `PathspecParser.ParseAttributeList` | gix-pathspec/src/parse.rs:182-193 | computes the assignments of an attribute keyword, or the first error |
| `PathspecParser.ParseShortKeywords` | gix-pathspec/src/parse.rs:96-119 | up to the first character that is no short keyword, a slash adds the top, a caret or an exclamation mark excludes, and nothing else changes; a colon there is taken along; it fails exactly if that character is an unsupported one, and names it |
| `PathspecParser.UnescapeAndCheck` | gix-pathspec/src/parse.rs:231-242 | computes the value without its escapes, or the first error |
| `PathspecParser.UnescapeAttributeValues` | gix-pathspec/src/parse.rs:195-229 | all values are unescaped, whether the text is borrowed or copied |
| `PathspecParser.ParseLongKeywords` | gix-pathspec/src/parse.rs:121-180 | the parts between unescaped commas make up the text; each of them is known, and each field of the pattern is set exactly if its keyword is among them; it fails for one that is not known, for literal and glob together, or within a list of attributes |
| `PathspecParser.FromBytes` | gix-pathspec/src/parse.rs:35-82 | what is understood and not taken literally is what the text says: top, exclusion, case, directory, search mode and path are exactly those of the short and long keywords, the path and the defaults; it is canonical and the same when printed and parsed without defaults; it stands for no path exactly for a single colon; an unsupported short keyword is an error that names it |
| `PathspecText.ShortKeywordsMeaning` | gix-pathspec/src/parse.rs:96-119 | what short keywords say, on the characters of the text |
| `PathspecText.KeywordsMeaning` | gix-pathspec/src/parse.rs:128-157 | what long keywords say, on the list of words |
| `PathspecText.KeywordsFailing` | gix-pathspec/src/parse.rs:128-157 | why long keywords fail, on the list of words |
| `PathspecText.ParsedIsUnderstood` | gix-pathspec/src/parse.rs:35-82 | whatever is parsed and not taken literally is what the text says |
| `PathspecText.EscapesVanish` | gix-pathspec/src/parse.rs:231-242 | a backslash before any character of a value makes no difference |
| `PathspecParser.ToBytes` | gix-pathspec/src/pattern.rs:155-194 | prints all keywords separated by commas, then the path |
| `PathspecRoundTrip.AttributesRoundTrip` | gix-pathspec/src/pattern.rs:178-186 | attributes with escaped commas come back unchanged |
| `PathspecRoundTrip.WordsRoundTrip` | gix-pathspec/src/pattern.rs:159-187 | all keywords come back unchanged |
| `PathspecRoundTrip.ParsedIsCanonical` | gix-pathspec/src/parse.rs:35-82 | what is parsed has printable attributes and no trailing slash that is not accounted for |
| `PathspecRoundTrip.RoundTrip` | gix-pathspec/src/pattern.rs:152-194 | a pattern comes back from printing and parsing if and only if it is canonical |
| `PathspecRoundTrip.ParsedComesBack` | gix-pathspec/src/pattern.rs:152-154 | every path specification that is not taken literally comes back, whatever the defaults were |
| `PathspecRoundTrip.ParsedParts` | gix-pathspec/src/parse.rs:35-82 | for all inputs and defaults: the path is the end of the input, and only a single colon stands for no path |
| `PathspecRoundTrip.LiteralComesBack` | gix-pathspec/src/parse.rs:84-93 | a literal one comes back if and only if it does not end in a slash or has to be a directory anyway |
| `PathspecRoundTrip.LiteralSlashIsLost` | gix-pathspec/src/parse.rs:84-93 | taken literally, `a/` does not come back |

## Left out

- GlobMatching.Wildmatch: what a bracket expression matches is not modelled; the step it makes the matcher take is an arbitrary function of the position in the pattern and the text byte.
- Describe.Search: the flags in the graph, the queue and the candidates are values that methods hand on, so updates in place are not captured.
- PathspecParser.ParseLongKeywords: the pattern under construction is a value that is handed on, for the same reason.
- Describe.Describe: histories have fewer than 2^32 - 1 commits, since the source counts with 32 bits.
- Skipping.Coverage: the history is closed under parents, since the source panics at a missing parent.
- CommitGraphFiles.VerifyIntegrity: does not model positions that overflow 32 bits, nor the texts in errors.
- CommitGraphFiles.LookupInFile: the fan entry for the first byte of the id stays within the file, since the source panics otherwise.
- PathStack.Stack.MakeRelativePathCurrent: the delegate never fails, and a path is the list of its components.
- Connectivity.Checker.CheckCommit: ids are used for one kind of object only, and objects that exist can be decoded.
- Ewah.ForEachSetBit: covers streams in which no literal words are missing, since the source panics otherwise; words are numbers, and their bit fields quotients and remainders; that shifts and masks of 64 bit words compute the same quotients and remainders is stated on such words, not on numbers.
- PathspecParser.ParseAttributeList: attributes are separated by ASCII white space; other Unicode white space is not modelled.
- Snapshot: the file is never deleted, and later versions have later times; the source documents that it is racy otherwise.
- Errors of object lookups and of decoding objects in the history walks.
- The negotiator that announces nothing, and the window sizes of fetches.
- Matching of patterns against repository-relative paths, and normalization of path specifications against a worktree.
- Formatting of descriptions, and everything about transports, processes, credentials, progress and the command line.
- Hashing, compression, archives and dates, which are foreign libraries.
