# Narration, routing and worklogs: a verified model

unjira reads what a person did, groups it into narratives with the help of a language model, and
proposes tracker writes. This project models the parts where one mistake would lose work, count
it twice or write it to the wrong place, and proves what they promise. The model's replies are
untrusted throughout: a pass is proved correct for every sequence of replies.

* **Clustering.** `Events`, `Clusters`, `Oracle`, `Prompts`, `Parsing` hold the data and the reading
  of a reply. `ContextFit`, `Windows`, `Engine` fit the context, bisect the window and cluster each
  part. `Omission`, `Rounds` recover omitted events. `Regrouping`, `Seam`, `SeamFacts` merge halves.
  `UnionFind`, `PRGroups`, `PRGrouping`, `PRJoin`, `PRJoinFacts`, `PRJoinTwice`, `PRJoinOnce` join clusters by pull
  request. `Disputes`, `DisputeFacts`, `Batching`, `DisputePass` settle double placements. `Pass` is the whole,
  and `Replay` shows that its replies decide it.
* **Persisting.** `Links` is the store of member and background links; `Persisting` says when a pass
  can be persisted and what it leaves; `Filing`, `PersistPass` are the transaction; `PersistFacts` what
  it guarantees.
* **Pre-assignment.** `Preassign`, `PreassignPass`, `DryRun`: the pull-request identity join and why a
  dry run shows the model what a real run does. `Narration` composes it with clustering and persisting.
* **Candidates.** `Candidates`, `CandidateFacts`: which issues a narrative might belong to.
* **Routing.** `Text`, `Scopes`, `Trackers`, `Routing`, `Configured`: the tracker model, its validation,
  where work may be ticketed, and what the validator's silence means.
* **Worklogs.** `Worklogs`, `WorklogFacts`: adding a worklog when any call may fail before or after
  taking effect.
* **Identities.** `PullRequest`: the one spelling of a pull request and its strict reader. `Ordering`:
  string order and sorting.

How the parts outside the program are represented:

* A reply is a value of `Oracle.Reply`: nothing, or a body already decoded, unreadable included. The
  n-th call reads the n-th element of an arbitrary infinite sequence.
* A prompt is its length in characters, two to a token. Its wording is a set of arbitrary lengths.
* An event is its key, its instant, its pull-request identity and how much longer than the shortest
  possible its rendered line is.
* The store is what its tables hold, with the guarantees of its schema as the precondition `Sound`. A
  transaction that fails is rolled back whole.
* The tracker is the list of worklogs it holds. Worklog ids are numbers it never reuses. An
  idempotency key stands for a hash taken to be collision-free.
* Letters are ASCII letters. Numbers are unbounded except where an `int` of 64 bits matters: the
  largest slice, a window's saturating duration, and the numbers parsed from keys.

Four places where the code and its own words differ, or where a plausible promise fails:

* Joining by pull request is not always idempotent: folding both claimants of an event together can
  leave it one claimant, and its pull request then connects more clusters. `PRJoinTwice.JoinTwiceExactly`
  says exactly when a second join changes nothing: each class of clusters that will share a pull request
  ends in one place or extends two or more stored narratives. `PRJoinOnce` has an input for which it does not.
* The worklog lookup reads only the draft's own issue, so a message whose mark was lost and which is
  then attributed to another issue is logged twice. `WorklogFacts.LoggedTwiceExactly` says exactly when
  for one attempt, and `RunLogsTwiceExactly` for a run.
* Which connection a candidate keeps depends on the order of events when two events about one issue
  name different ones. `CandidateFacts.OrderFreeExactly` says exactly when, of the list returned.
* When two results extend one narrative, the last one with work writes its summary, so the order of the
  results decides it. `PersistFacts.SummaryOrderFreeExactly` says exactly when it does not.

## Model

| member | source | states |
|---|---|---|
| `Narration.RunNarrate` | internal/pipeline/narrate.go:138-237 | The pass ends as its replies say: with nothing to do if and only if identity settles every candidate; failed if clustering does; refused if a New cluster has no work; listing the clusters on a dry run; and otherwise persisting exactly them if and only if a store can take them. The store stays sound, no work a committed action describes moves, a dry run changes nothing, a pass not narrated has written only the identity joins, and a narrated one leaves every candidate of the window a home |
| `Narration.Finish` | internal/pipeline/narrate.go:207-275 | What a pass over an exact cover comes to, and the store it leaves, for each way clustering can end |
| `Narration.CoverPersists` | internal/correlator/correlator.go:1410-1486 | Clusters that cover their window exactly can be persisted if and only if no new one is without work, every extended narrative is stored and every emptied one has a known status: no other check of Persist can fail on them |
| `Narration.PassIsSafe` | internal/pipeline/narrate.go:242-275 | A join followed by a persisted exact cover leaves a sound store, every candidate of the window homed, and committed work where it was |
| `Narration.DropEmptyClusters` | internal/pipeline/narrate.go:288-306 | Keeps, in order, exactly the clusters that hold some event |
| `Narration.DroppedKeeps` | internal/pipeline/narrate.go:288-306 | Dropping empty clusters loses no placement and no sole claim, and adds no background |
| `Narration.RequireNonEmptyClusters` | internal/pipeline/narrate.go:315-324 | Accepts exactly the lists in which every New cluster holds work |
| `Narration.InputOffered` | internal/pipeline/narrate.go:348-427 | Everything clustering may place is stored, and is either a candidate without a home or work its narrative has not committed |
| `Pass.Cluster` | internal/correlator/correlator.go:518-566 | The outcome is the one the replies lead to: the windows' clusters, joined by pull request, with every dispute settled by its batch's first complete reply, and for a failure the reason the replies give. For every sequence of replies success is an exact cover, extends no narrative twice unless a reply did, and after disputes leaves no New cluster without work; splits, merge checks and calls stay within the stated bounds; each window's first prompt is within the budget; unless something is disputed those first calls, the re-asks, the omission rounds and the seam questions are all the calls; and the narratives reported are those left out of some call |
| `Pass.JoinWindow` | internal/correlator/correlator.go:536-551 | The work of two clusters ends in one if and only if undisputed pull requests connect them and their group extends at most one stored narrative; every placement and confidence is kept; the joins counted are how much shorter the list became; the conflicts name exactly the groups left apart |
| `Pass.SettleWindow` | internal/correlator/correlator.go:553-566 | The joined clusters as they are when nothing is disputed, and otherwise as the replies about their disputes settle them |
| `Replay.PassUnique` | internal/correlator/correlator.go:518-566 | Two passes over one input that read the same replies come to the same outcome by the same calls, joins and conflicts |
| `Replay.WindowUnique` | internal/correlator/correlator.go:572-722 | The replies decide how a window is cut, what each of its calls reads, and what it comes to |
| `Replay.CallUnique` | internal/correlator/correlator.go:646-722 | The replies decide how many re-asks and rounds a call takes and what it comes to |
| `Replay.DisputesUnique` | internal/correlator/cluster_dispute.go:154-223 | The replies decide how the dispute pass ends |
| `Pass.JoinedCovers` | internal/correlator/correlator.go:518-566 | Joining by pull request keeps the cover and one result per narrative |
| `Pass.UndisputedExact` | internal/correlator/correlator.go:518-566 | A cover with no dispute is exact |
| `Pass.SettledExact` | internal/correlator/correlator.go:518-566 | A cover whose every dispute is settled is exact, and one result per narrative is kept |
| `Pass.PromptBudget` | internal/correlator/context_fit.go:75-85 | There is a budget exactly when the reserve leaves some of the context window; it never exceeds the window |
| `Engine.ClusterWindow` | internal/correlator/correlator.go:572-722 | At any bisection depth: a window is called as it stands if and only if its own events fit and either all its narratives do or it cannot be cut; a successful one covers its events with well-formed clusters of its own and its narratives' eligible events, which are what its calls' replies and its seams' say; every narrative near a window is shown to its first call unless the window could not be cut; the cost is within the bound for its number of events |
| `Engine.ClusterWhole` | internal/correlator/correlator.go:607-722 | A window called as it stands: with the narratives that fit, reporting the others |
| `Engine.CutOnlyWhenNeeded` | internal/correlator/correlator.go:607-614 | A window that fits with all its narratives is called once and leaves none out; one whose own events do not fit is cut, or fails without a call |
| `Engine.CallsTile` | internal/correlator/correlator.go:1115-1156 | The windows of a successful pass's first calls follow one another from its start to its end |
| `Engine.RanHalves` | internal/correlator/correlator.go:1115-1156 | Two halves clustered and their seam merged are the whole window clustered: plan, calls, cost and reports |
| `Engine.ClusterWithSplit` | internal/correlator/correlator.go:1115-1156 | The two halves and their seam together cover the window, within the cost of the whole |
| `Engine.ClusterCall` | internal/correlator/correlator.go:646-722 | One call, no call if an event would be numbered twice: it ends as the first accepted reply and the rounds after it say, or for the reason the replies give |
| `Engine.FirstAnswer` | internal/correlator/correlator.go:655-680 | The first reply accepted whole, after only refused ones, or why there is none |
| `Engine.FinishCall` | internal/correlator/correlator.go:699-722 | An accepted reply's clusters with what the omission rounds add, covering the window, or why the rounds stopped short |
| `Engine.ReaskRefusedCluster` | internal/correlator/cluster_parse_reask.go:62-112 | Asked again while refused and while the budgets allow: it ends with the first accepted reply, read whole, or because no answer came, one more would not fit, or none is left |
| `Engine.ClusterSecondHalf` | internal/correlator/correlator.go:1115-1156 | The second half clustered and merged with a covered first: a cover of the whole, as both halves' plans and the seam's reply say |
| `Engine.MergeHalves` | internal/correlator/correlator.go:1134-1156 | Two covered halves merged as the reply about their seam says, into a cover of the whole, with one question if and only if there is a seam to ask about |
| `Engine.HalvesCover` | internal/correlator/correlator.go:1115-1156 | Merged halves cover their window whatever the model says about the seam |
| `Engine.CostAdds` | internal/correlator/correlator.go:1115-1156 | Two halves' costs and one seam question stay within the whole window's bound |
| `Engine.FitSound` | internal/correlator/correlator.go:607-646 | What the fit keeps was offered, and its prompt with its follow-up is within the budget |
| `Windows.HalvesExactly` | internal/correlator/correlator.go:1159-1178 | The halves of a bisectable window are both non-empty, share no event and lose none, and see no narrative the whole does not |
| `Windows.HalvesEven` | internal/correlator/correlator.go:1159-1163 | The halves meet, cover the window, and are equally long to the nanosecond |
| `Windows.IsBisectable` | internal/correlator/correlator.go:1169-1178 | True exactly when both halves hold events, hence each holds fewer than the whole |
| `Windows.AssignableEvents` | internal/correlator/correlator.go:813-832 | One index space: in-window events, then eligible ones; an error exactly when an event is in it twice |
| `Windows.FilterAdjacentOrOverlapping` | internal/correlator/correlator.go:740-749 | Keeps, in order, the narratives whose window overlaps or touches |
| `Windows.RelevantExactly` | internal/correlator/correlator.go:740-749 | Those kept are exactly the ones not strictly disjoint from the window |
| `Windows.RelevantMeets` | internal/correlator/correlator.go:740-749 | A narrative is shown if and only if some instant is in both its window and the call's, ends included |
| `Events.FilterEventsInWindow` | internal/correlator/correlator.go:726-734 | The in-window events in order |
| `Events.WithinExactly` | internal/correlator/correlator.go:726-734 | Membership is exactly being listed and in the half-open window |
| `Events.WithinNarrower` | internal/correlator/correlator.go:726-734 | Filtering for a part of the window reads the same before or after filtering for the whole |
| `Events.WithinSplits` | internal/correlator/correlator.go:1159-1163 | Cutting a window in two neither loses nor doubles an event |
| `Clusters.AbsorbInto` | internal/correlator/correlator.go:152-186 | The destination after taking the source's members and context, as the specification Absorb says |
| `Clusters.AbsorbWellFormed` | internal/correlator/correlator.go:152-186 | Unique members, unique context, the two disjoint, overrides only of members: all kept |
| `Clusters.AbsorbPlaces` | internal/correlator/correlator.go:152-186 | The members are both sides' members; the context is both sides' context less those; the destination's order is kept |
| `Clusters.AbsorbConfidence` | internal/correlator/correlator.go:129-186 | Each member has the confidence stated by the first side that held it |
| `Clusters.UnseenExactly` | internal/correlator/correlator.go:152-186 | What a merge takes from a list: each identity not yet held, once |
| `Clusters.OverriddenExactly` | internal/correlator/correlator.go:152-186 | An override is recorded for exactly the added members stated at another confidence |
| `Oracle.UnionExactly` | internal/correlator/context_fit.go:163-178 | The merged narrative ids are those of both lists, none twice |
| `Regrouping.RegroupedPlaces` | internal/correlator/correlator.go:1217-1278 | Combining clusters places exactly the events that were placed |
| `Regrouping.RegroupedSoleClaim` | internal/correlator/correlator.go:1217-1278 | Combining clusters creates no second claimant |
| `Regrouping.RegroupedBackground` | internal/correlator/correlator.go:1217-1278 | Context is kept unless it became a member |
| `Regrouping.RegroupedDrawnFrom` | internal/correlator/correlator.go:1217-1278 | No event is invented |
| `Regrouping.RegroupedExtends` | internal/correlator/cluster_prjoin.go:90-154 | The same stored narratives are extended |
| `Regrouping.RegroupedExtendsOnce` | internal/correlator/cluster_prjoin.go:90-154 | A narrative extended once is still extended once |
| `Seam.MergeSplitResults` | internal/correlator/correlator.go:1217-1278 | The merged halves, or the failure, that the one possible reply determines; one question at most |
| `SeamFacts.SameStoryExactly` | internal/correlator/correlator.go:1311-1349 | An answer of one story gives one cluster with exactly both sides' work, each event at the confidence stated, under the answer's words; two stories, nothing; no readable answer, a failure |
| `Seam.LastNewIndex` | internal/correlator/correlator.go:1280-1287 | The position the specification of the last New cluster names |
| `Seam.FirstNewIndex` | internal/correlator/correlator.go:1289-1296 | The position the specification of the first New cluster names |
| `Seam.LastNewExactly` | internal/correlator/correlator.go:1280-1287 | It is New, and no later cluster is |
| `Seam.FirstNewExactly` | internal/correlator/correlator.go:1289-1296 | It is New, and no earlier cluster is |
| `SeamFacts.SeamRegroups` | internal/correlator/correlator.go:1217-1278 | Whatever the reply, every placement, context event and stated confidence of both halves survives, and nothing is doubled |
| `SeamFacts.MatchedExactly` | internal/correlator/correlator.go:1217-1278 | A second-half cluster joins a first-half one if and only if both extend one narrative |
| `SeamFacts.SeamExtendsOnce` | internal/correlator/correlator.go:1217-1278 | If each half extends every narrative at most once, so does the merge |
| `SeamFacts.OneStoryMerges` | internal/correlator/correlator.go:1311-1349 | Two New clusters made one story: both sides' work at the confidences stated |
| `UnionFind.Sets.constructor` | internal/correlator/cluster_prjoin.go:247-254 | Every index alone in its own component |
| `UnionFind.Sets.Find` | internal/correlator/cluster_prjoin.go:256-262 | The root of i, with paths compressed and no component changed; it ends because no parent index exceeds its own |
| `UnionFind.Sets.Union` | internal/correlator/cluster_prjoin.go:264-267 | The two components, and no others, now share the smaller root |
| `UnionFind.CompressKeepsRoot` | internal/correlator/cluster_prjoin.go:256-262 | Compression changes no root |
| `UnionFind.LinkRelabels` | internal/correlator/cluster_prjoin.go:264-267 | Linking a root to a smaller one relabels exactly its component |
| `UnionFind.RelabelledLeast` | internal/correlator/cluster_prjoin.go:264-267 | After one more union the labels are again those of the least equivalence containing the unions |
| `UnionFind.LabelIsLeast` | internal/correlator/cluster_prjoin.go:256-262 | A label is the least index of its component |
| `UnionFind.LeastLabelsUnique` | internal/correlator/cluster_prjoin.go:247-267 | Only one labelling is the least equivalence's |
| `PRGroups.CountClaims` | internal/correlator/cluster_prjoin.go:215-241 | How many clusters claim each event |
| `PRGroups.UndisputedPRHolders` | internal/correlator/cluster_prjoin.go:215-241 | For each pull request the clusters holding it through an event no other claims, ascending |
| `PRGroups.GroupLabelsUnique` | internal/correlator/cluster_prjoin.go:167-211 | The least equivalence of sharing an undisputed pull request has one labelling by earliest cluster |
| `PRGrouping.EdgesGiveGroups` | internal/correlator/cluster_prjoin.go:167-211 | Joining each pull request's holders to its first yields exactly the components of sharing one |
| `PRGrouping.JoinShared` | internal/correlator/cluster_prjoin.go:167-211 | The unions made are those of the pull requests with two or more holders |
| `PRGrouping.GroupByPullRequest` | internal/correlator/cluster_prjoin.go:167-211 | Exactly the components of two or more clusters, by earliest cluster, each with the pull requests it shares |
| `PRGrouping.GroupsUnique` | internal/correlator/cluster_prjoin.go:167-211 | Only one list of groups meets that description |
| `PRJoin.JoinByPullRequest` | internal/correlator/cluster_prjoin.go:90-154 | One cluster per group at its earliest place, groups of two stored narratives left and reported, and the list shorter by exactly the joins counted |
| `PRJoin.FoldGroups` | internal/correlator/cluster_prjoin.go:90-154 | Each group that joins folded into its target, and every other group reported as a conflict |
| `PRJoinFacts.JoinRegroups` | internal/correlator/cluster_prjoin.go:90-154 | Every member and confidence kept, context kept unless it became a member, no two stored narratives folded together |
| `PRJoinFacts.JoinedTogetherExactly` | internal/correlator/cluster_prjoin.go:90-154 | Two clusters end as one if and only if shared pull requests connect them and their group extends at most one narrative |
| `PRJoinFacts.TakeGroupMerges` | internal/correlator/cluster_prjoin.go:90-154 | Folding a group keeps every cluster's members, context and confidences, and the target's narrative |
| `PRJoinFacts.JoinKeepsWords` | internal/correlator/cluster_prjoin.go:90-154 | A joined group keeps the kind, narrative, title, summary and confidence of its first extend, or of its earliest cluster when it has none |
| `PRJoinFacts.ConflictsExactly` | internal/correlator/cluster_prjoin.go:90-154 | The conflicts name exactly the groups extending two stored narratives or more, by earliest cluster, with their clusters and the pull requests two of them share |
| `PRJoinTwice.JoinTwiceExactly` | internal/correlator/cluster_prjoin.go:90-154 | With one event to an identity, joining again changes nothing if and only if every class of clusters that will share a pull request, but ends in more than one place, extends two stored narratives or more |
| `PRJoinTwice.ClassesExist` | internal/correlator/cluster_prjoin.go:90-154 | Those classes exist for every list of clusters |
| `PRJoinTwice.HeldAfter` | internal/correlator/cluster_prjoin.go:215-241 | A joined cluster holds a pull request if and only if the clusters it is made of bring an event of it whose every claimant ends there |
| `PRJoinTwice.UnchangedExactly` | internal/correlator/cluster_prjoin.go:90-154 | A join changes nothing if and only if no group joins |
| `PRJoinTwice.JoinTwice` | internal/correlator/cluster_prjoin.go:90-154 | In particular, when no event has two claimants, joining again changes nothing |
| `PRJoinOnce.JoinTwiceCanDiffer` | internal/correlator/cluster_prjoin.go:90-154 | With a doubly claimed event joining again can join more: a concrete input |
| `Parsing.ResolvePlacement` | internal/correlator/correlator.go:1008-1047 | An item is read exactly when its indices are in range and, if it places members, it states a confidence in [0, 1] |
| `Parsing.RefusedExactly` | internal/correlator/correlator.go:1008-1047 | An item is refused if and only if it names an event not numbered, or places members at no confidence from 0 to 1; one that places none needs none |
| `Parsing.ResolvedExactly` | internal/correlator/correlator.go:1008-1047 | Its members are exactly the events it names, each once; its context exactly the others it names as such; its confidence the one it states |
| `Parsing.ParseClusterResponse` | internal/correlator/correlator.go:1070-1107 | All items or none |
| `Parsing.ParsedExactly` | internal/correlator/correlator.go:1070-1107 | Each cluster of an accepted reply says what its item says: kind, narrative, words, members, context and confidence; it is well formed, of the numbered events, with its member numbers |
| `Parsing.ParsedExtendsOnce` | internal/correlator/correlator.go:1070-1107 | A reply extending each narrative once gives clusters that do |
| `Parsing.UnassignedIndices` | internal/correlator/cluster_reask.go:101-119 | The in-window indices listed by no cluster, ascending |
| `Parsing.ListedIsPlaced` | internal/correlator/cluster_reask.go:101-119 | An index is listed if and only if its event has a home |
| `Omission.RequireOmitted` | internal/correlator/cluster_reask.go:372-385 | True exactly when every index is numbered and omitted |
| `Rounds.JoinGrows` | internal/correlator/cluster_reask.go:436-442 | A cluster a re-ask item joins grows by exactly the item's events at the item's confidence, keeps every member, confidence and background it had, and takes a summary only if one is given |
| `Omission.MergeItem` | internal/correlator/cluster_reask.go:328-368 | One item is placed or refused; refused leaves no trace |
| `Omission.PlaceReaskItem` | internal/correlator/cluster_reask.go:390-429 | Where an item goes: an earlier cluster, the narrative's cluster, or a new one |
| `Omission.MergeReaskResponse` | internal/correlator/cluster_reask.go:328-368 | A reply is merged whole, or refused whole even when refused after some items were applied |
| `Rounds.PlacedAllKeeps` | internal/correlator/cluster_reask.go:328-429 | An accepted reply keeps every earlier cluster in its place with its kind, narrative and members, and narratives extended once |
| `Rounds.PlacedAllPlaces` | internal/correlator/cluster_reask.go:328-368 | It places exactly the events it names |
| `Rounds.PlacedWhereNamed` | internal/correlator/cluster_reask.go:390-429 | The events of each item end in the place it names: the earlier cluster, a cluster extending its narrative, or a new one with its title |
| `Rounds.StillMissingExactly` | internal/correlator/cluster_reask.go:328-368 | Still missing are exactly the omitted events it does not name |
| `Rounds.AfterReplySettled` | internal/correlator/cluster_reask.go:125-199 | One round: earlier clusters kept, the missing set a subset of the last, and exactly what has no home; a refused reply changes nothing |
| `Rounds.RoundsSettled` | internal/correlator/cluster_reask.go:125-199 | The same over any number of rounds |
| `Rounds.ChainUnique` | internal/correlator/cluster_reask.go:125-199 | The replies decide the state after each round |
| `Rounds.RecoverOmittedEvents` | internal/correlator/cluster_reask.go:125-199 | Success only when nothing is missing; rounds go on until then, and stop short only when no answer comes, one more would not fit the budget, or none is left; what was recovered is what is no longer missing |
| `Rounds.MemberIndices` | internal/correlator/cluster_reask.go:216-235 | Fails exactly when a cluster holds an event that was never numbered |
| `Rounds.AlwaysNumbered` | internal/correlator/cluster_reask.go:216-235 | On a reachable state it never fails |
| `Disputes.FindDisputes` | internal/correlator/cluster_dispute.go:117-146 | The disputes in order of first appearance, as specified |
| `DisputeFacts.DisputesExactly` | internal/correlator/cluster_dispute.go:117-146 | Exactly the events of two or more claimants, each once, with every claimant |
| `Disputes.ParseDisputeResponse` | internal/correlator/cluster_dispute.go:527-583 | Verdicts exactly when every dispute is answered once, by a claimant, with a rationale and a confidence in [0, 1] |
| `Disputes.ApplyDisputeAnswers` | internal/correlator/cluster_dispute.go:594-660 | Every answer applied to copies; an error exactly when a New cluster would be left without a member |
| `Disputes.ApplyOne` | internal/correlator/cluster_dispute.go:594-660 | One answer applied |
| `DisputeFacts.SettledDispute` | internal/correlator/cluster_dispute.go:594-660 | Each disputed event ends a member of exactly the answered claimant, at the answered confidence, and context of every other |
| `DisputeFacts.SettledElsewhere` | internal/correlator/cluster_dispute.go:594-660 | Every other placement, context event and confidence is unchanged |
| `DisputeFacts.SettledOneHome` | internal/correlator/cluster_dispute.go:594-660 | No event is left with two homes, and none loses its only one |
| `DisputeFacts.SettledBackground` | internal/correlator/cluster_dispute.go:594-660 | No background is lost |
| `DisputeFacts.SettledSound` | internal/correlator/cluster_dispute.go:594-660 | The settled clusters are well formed, of the same events, kinds and narratives |
| `Batching.BatchDisputes` | internal/correlator/cluster_dispute.go:361-386 | Non-empty contiguous batches whose concatenation is the input, each rendered within the budget unless it is one dispute, none able to take the next |
| `Batching.StaysAhead` | internal/correlator/cluster_dispute.go:361-386 | After as many batches the greedy packing has packed at least as much as any other |
| `Batching.FewestBatches` | internal/correlator/cluster_dispute.go:361-386 | No order-preserving packing within the limits uses fewer batches |
| `Batching.TightUnique` | internal/correlator/cluster_dispute.go:361-386 | Only one packing within the limits leaves no batch able to take the next dispute |
| `Batching.BatchesBounded` | internal/correlator/cluster_dispute.go:361-386 | No more batches than disputes |
| `DisputePass.AskDisputeBatch` | internal/correlator/cluster_dispute.go:232-284 | Asked until the first complete reply, whose verdicts it gives whole; it fails only when no answer comes, one more ask would not fit, or none is left |
| `DisputePass.AskAll` | internal/correlator/cluster_dispute.go:154-223 | The verdicts are each batch's first complete reply's, in turn, and none is given unless every batch answered; calls at most batches times the budget |
| `DisputePass.AllFit` | internal/correlator/cluster_dispute.go:393-413 | Checks every batch's prompt before any is sent |
| `DisputePass.ResolveDisputes` | internal/correlator/cluster_dispute.go:154-223 | No dispute: nothing asked or changed. Otherwise it ends as the greedy batches' replies say: refused before any is sent when one does not fit, failed with the first batch that fails, and else every dispute settled by its batch's verdict, or an error when that leaves a New cluster without work |
| `ContextFit.FitContextNarratives` | internal/correlator/context_fit.go:111-160 | Each narrative is kept if and only if it fits together with those kept before it, measured as the prompt renders them with a follow-up for each; the others are reported, in order |
| `ContextFitFacts.GreedyUnique` | internal/correlator/context_fit.go:111-160 | Only one choice does so |
| `ContextFitFacts.NoneLeftOutExactly` | internal/correlator/context_fit.go:111-160 | Nothing is left out if and only if all of them fit together, or there is none |
| `ContextFitFacts.MeasuredIsRendered` | internal/correlator/context_fit.go:96-110 | The measure is the rendered prompt's length to the character, unless a background line was shortened by a later narrative's numbering |
| `ContextFit.NumberTentatively` | internal/correlator/context_fit.go:111-160 | The numbers a candidate narrative adds, which taking away restores the old numbering |
| `ContextFitFacts.BackReferenceShorter` | internal/correlator/correlator.go:899-913 | A back-reference line is never longer than the detail line it replaces |
| `ContextFitFacts.PromptWithinBudget` | internal/correlator/context_fit.go:111-160 | The prompt rendered for the kept narratives is within the budget with 401 tokens spare for each |
| `Prompts.TokensCover` | internal/correlator/correlator.go:771-787 | A prompt's estimate is the fewest tokens that cover it, two characters to each |
| `ContextFitFacts.FitKeepsOrder` | internal/correlator/context_fit.go:111-160 | The kept are some of those offered, whole and in order; every other is reported |
| `Links.Store.MoveMember` | internal/store/linkkind.go:99-149 | Sets the one home; fails, changing nothing, on a member its narrative has committed; a member already there keeps its link |
| `Links.Store.AddContext` | internal/store/linkkind.go:163-180 | Adds a background link unless the narrative already holds the event; deletes nothing |
| `Links.Store.MemberHolders` | internal/store/linkkind.go:212-234 | Exactly the narratives whose work includes one of the events |
| `Links.Store.EventsWithoutMemberHome` | internal/store/linkkind.go:188-203 | Exactly the events of the list that are no narrative's work |
| `Links.Store.MarkSplitIfEmptied` | internal/store/narrativestatus.go:57-94 | Splits a narrative without work and drops its background; refuses a status it does not know |
| `Links.Store.InsertNarrative` | internal/store/narratives.go:50-64 | A row under the next id |
| `Links.Store.ExtendNarrative` | internal/store/narratives.go:135-145 | Only the window end and summary change |
| `Persisting.EarliestExactly` | internal/correlator/correlator.go:1676-1735 | The computed start is the earliest instant of the events |
| `Persisting.LatestExactly` | internal/correlator/correlator.go:1676-1735 | The computed end is the latest instant of the events |
| `Filing.WindowOf` | internal/correlator/correlator.go:1676-1735 | The bounds of the members' instants |
| `Filing.MoveMembers` | internal/correlator/correlator.go:1821-1829 | Fails exactly when a member may not move; otherwise all and only the result's members are moved |
| `Filing.ApplyPrepared` | internal/correlator/correlator.go:1831-1901 | A new row and its members, an extended row and its members, or nothing for a context-only extend |
| `Filing.MovableIsTakeable` | internal/correlator/correlator.go:1831-1901 | What earlier results wrote does not decide whether a later one's members may move |
| `Filing.FileStep` | internal/correlator/correlator.go:1410-1486 | Writing one more result keeps what the earlier ones wrote |
| `Filing.ApplyAll` | internal/correlator/correlator.go:1442-1450 | Succeeds exactly when every member may move, whatever the order; every member ends in its result's narrative and every row as its results leave it |
| `PersistPass.CheckClaims` | internal/correlator/correlator.go:1642-1658 | True exactly when no event is a member of two results or of one twice |
| `PersistPass.PrepareResults` | internal/correlator/correlator.go:1630-1735 | True exactly when claims are single, every event is stored, and each result has something to write and somewhere to write it |
| `PersistPass.MemberEventIDs` | internal/correlator/correlator.go:1517-1524 | Exactly the events some result holds |
| `PersistPass.ApplyContextLinks` | internal/correlator/correlator.go:1491-1514 | Adds exactly the named background whose event is not the narrative's own work |
| `PersistPass.MarkEmptied` | internal/correlator/correlator.go:1537-1561 | Splits exactly the listed narratives without work, or fails when one's status is unknown |
| `PersistPass.EmptiedExactly` | internal/correlator/correlator.go:1537-1561 | A holder is without work afterwards if and only if the pass took all it had and gave it none |
| `PersistPass.RequireMemberHomes` | internal/correlator/correlator.go:1569-1602 | True exactly when every event given as background is some narrative's work |
| `PersistPass.Persist` | internal/correlator/correlator.go:1410-1486 | Persists the results exactly when a condition checkable beforehand holds, and otherwise changes nothing |
| `PersistFacts.PersistKeepsSound` | internal/correlator/correlator.go:1410-1486 | The store stays sound: one home per linked event, none both work and background, every background event homed |
| `PersistFacts.EveryEventHomed` | internal/correlator/correlator.go:1569-1602 | Every event a result named has exactly one home, its result's if it is a member of one |
| `PersistFacts.NoneOpenWithoutWork` | internal/correlator/correlator.go:1537-1561 | A narrative the pass took work from holds some or is split |
| `PersistFacts.EmptiedBare` | internal/correlator/correlator.go:1537-1561 | A narrative the pass emptied is split and holds neither work nor background |
| `PersistFacts.BegunCovers` | internal/correlator/correlator.go:1831-1850 | A narrative the pass begins is open, holds exactly its result's work, and runs from its first event to its last |
| `PersistFacts.FrozenStays` | internal/store/linkkind.go:99-149 | A committed member is never moved |
| `PersistFacts.CommitFreezes` | internal/store/linkkind.go:99-149 | An applied action freezes all its narrative's work so far, nothing else's, and nothing linked after it |
| `PersistFacts.CanPersistAlike` | internal/correlator/correlator.go:1410-1486 | Whether results can be persisted does not depend on their order |
| `PersistFacts.OrderOfResultsIrrelevant` | internal/correlator/correlator.go:1433-1472 | Any order of the results leaves the same homes, background, statuses and windows, up to fresh ids |
| `PersistFacts.RowsAgreeExactly` | internal/correlator/correlator.go:1831-1901 | Two orders leave the same row whole if and only if the last result that gives the narrative work states the same summary in both |
| `PersistFacts.SummaryOrderFreeExactly` | internal/correlator/correlator.go:1831-1901 | No order changes a summary if and only if no two results that give the narrative work state different ones |
| `PersistFacts.SummaryDependsOnOrder` | internal/correlator/correlator.go:1831-1901 | Two results that extend one narrative leave it a different summary in each order: a concrete input |
| `PersistFacts.SummariesAlike` | internal/correlator/correlator.go:1831-1901 | In particular the rows are the same whole when no narrative is extended twice |
| `PreassignPass.PlanPRIdentity` | internal/pipeline/preassign.go:83-111 | Splits the candidates into joined, fallen back and remaining, as specified |
| `Preassign.PlacedInExactly` | internal/pipeline/preassign.go:83-111 | Every candidate is joined or remains, never both; a fallback is a remaining candidate with an identity, with its reason and holders |
| `Preassign.JoinsExactly` | internal/pipeline/preassign.go:83-111 | An event joins a narrative if and only if that narrative alone holds its pull request's work and is open |
| `Preassign.FallsBackExactly` | internal/pipeline/preassign.go:83-111 | A candidate with an identity falls back as having no holder, several, or one not open, if and only if that is so |
| `PreassignPass.PreassignByPullRequest` | internal/pipeline/preassign.go:156-200 | Both modes decide the same; a dry run writes nothing; a real one writes exactly the placements and the extensions |
| `PreassignPass.LinkPRPreAssignments` | internal/pipeline/preassign.go:203-216 | Each placed event becomes its narrative's work, by identity, at a fresh position; no other link changes |
| `PreassignPass.EndsPlanned` | internal/pipeline/preassign.go:223-236 | The planned end of each narrative placed into |
| `PreassignPass.EndsNamePlaced` | internal/pipeline/preassign.go:223-236 | Exactly the narratives placed into, each reaching every event placed there and no further |
| `PreassignPass.JoinReaches` | internal/pipeline/preassign.go:241-259 | A join moves a narrative's end forward over what joined it, never back and no further |
| `PreassignPass.ExtendForPreAssignments` | internal/pipeline/preassign.go:241-259 | Ends move forward to the planned ones, never back; nothing else in a row changes |
| `PreassignPass.JoinKeepsSound` | internal/pipeline/preassign.go:156-200 | The join leaves the store sound |
| `DryRun.HydrateContextNarratives` | internal/pipeline/narrate.go:348-427 | The overlapping narratives, with extended windows, their frozen, eligible and background events |
| `DryRun.OverlapsExactly` | internal/store/narratives.go:307-352 | A narrative is read if and only if it is not split and some instant is in both its window, moved forward, and the pass's |
| `DryRun.VisibleExactly` | internal/store/linkkind.go:344-360 | A list holds exactly the stored events after the narrative's boundary that are linked to it in that way |
| `DryRun.ShownFromBoundary` | internal/store/linkkind.go:350-360 | A narrative folded up to a stored event shows the events after that one and only those |
| `DryRun.HidePreAssigned` | internal/pipeline/preassign.go:277-316 | Every joined event taken out of every list, in place |
| `DryRun.SameOverlapping` | internal/store/narratives.go:307-352 | Reading windows as moved before the write selects what reading them after it does |
| `DryRun.DryRunEqualsRealRun` | internal/pipeline/preassign.go:127-200 | From any sound store a real run, which has written, gives the model the same candidates and narratives as a dry run, which has not |
| `DryRun.AssembleInput` | internal/pipeline/narrate.go:181-202 | Both modes assemble the input a dry run would |
| `DryRun.PlacedNeverShown` | internal/pipeline/preassign.go:261-316 | A joined event is neither a candidate nor in any narrative shown |
| `Candidates.UpsertRecords` | internal/correlator/match_candidates.go:97-118 | One more mention leaves each key mentioned so far at its strongest, with a connection if any mention had one, and touches no other key |
| `Candidates.GatherBest` | internal/correlator/match_candidates.go:120-152 | Every mention of every event recorded, in order |
| `Candidates.BestExactly` | internal/correlator/match_candidates.go:97-152 | Each key mentioned is on record at its strongest, with a connection exactly when some mention had one |
| `Candidates.Values` | internal/correlator/match_candidates.go:154-157 | Each recorded candidate once, in any order |
| `Candidates.PromoteCorroborated` | internal/correlator/match_candidates.go:254-265 | In place: prose mentions of active issues promoted, nothing else changed |
| `Candidates.AheadIsOrder` | internal/correlator/match_candidates.go:274-293 | The comparator is a strict total order on different keys |
| `Ordering.BeforeExactly` | internal/correlator/match_candidates.go:274-293 | A key comes before another if and only if it is a proper beginning of it or smaller where they first differ |
| `Candidates.RankCandidates` | internal/correlator/match_candidates.go:274-293 | The same candidates in strict order |
| `Candidates.DropExcluded` | internal/correlator/match_candidates.go:298-322 | The candidates not excluded, in order |
| `Candidates.KeptExactly` | internal/correlator/match_candidates.go:298-322 | Exactly those, and still in order |
| `Candidates.GatherCandidates` | internal/correlator/match_candidates.go:89-171 | The head of the one ranking of every key mentioned and not excluded |
| `CandidateFacts.OrderIrrelevant` | internal/correlator/match_candidates.go:89-171 | The keys and strengths returned depend only on which events were seen, not on their order or a map's |
| `CandidateFacts.GatheredStrongest` | internal/correlator/match_candidates.go:89-171 | Each key returned is at its strongest mention or promoted from prose, with a connection exactly when one was mentioned |
| `CandidateFacts.CutNeverOutranks` | internal/correlator/match_candidates.go:166-170 | Something is cut only at the limit, and every key kept ranks ahead of it |
| `CandidateFacts.StrengthExactly` | internal/correlator/match_types.go:152-180 | Strongest first: a reviewer, a branch, an authoring command, a Jira event, corroborated prose, a first prose mention, a later one |
| `CandidateFacts.MentionsExactly` | internal/correlator/match_candidates.go:120-152 | What an event mentions is exactly what it names, each key as strongly as it names it, with a connection only for the issue it is about |
| `CandidateFacts.GatheredAsNamed` | internal/correlator/match_candidates.go:89-171 | Each key returned is as strong as the strongest way the events name it, a key only found in prose counting as corroborated when its issue is known to be active, and no stronger |
| `CandidateFacts.PromotionStrengthens` | internal/correlator/match_candidates.go:254-265 | Promotion never demotes, and touches only what was found in prose |
| `CandidateFacts.GatheredInOrder` | internal/correlator/match_candidates.go:274-293 | Stronger provenances come first; among corroborated keys the latest activity; otherwise by key |
| `CandidateFacts.CutIsWeaker` | internal/correlator/match_candidates.go:166-170 | A key named, not excluded and not returned was cut at the limit, and everything returned is at least as strong |
| `CandidateFacts.BranchNotCut` | internal/correlator/match_candidates.go:166-170 | No key a branch names is cut while one no branch names is returned |
| `CandidateFacts.ConnectionIsFirst` | internal/correlator/match_candidates.go:97-118 | The connection kept is the first one mentioned |
| `CandidateFacts.ReturnedExactly` | internal/correlator/match_candidates.go:154-170 | The keys returned are exactly those mentioned and not excluded that fewer than the limit rank ahead of |
| `CandidateFacts.OrderFreeExactly` | internal/correlator/match_candidates.go:89-171 | Every reordering of the events returns the same list, connections included, if and only if no two events name different connections for a key that is neither excluded nor cut |
| `CandidateFacts.ConnectionDependsOnOrder` | internal/correlator/match_candidates.go:97-118 | And it can: two events naming different connections for one issue, returned with one connection in one order and the other in the other |
| `Scopes.OverlapExactly` | internal/config/trackers.go:173-194 | Two scopes overlap if and only if some scope is covered by both |
| `Scopes.OverlapMeansSharedIssue` | internal/tasktracker/key.go:50-99 | Two configured scopes overlap if and only if some issue key routes to both |
| `Trackers.ValidateTrackers` | internal/config/trackers.go:320-359 | Reports every problem and nothing else; no report if and only if the configuration is valid |
| `Configured.ValidExactly` | internal/config/trackers.go:320-359 | A configuration is accepted if and only if its connections are named apart and reachable, its trackers named apart, each agreeing with its connection's kind and with itself, mirroring and ticketing only where creates are taken, no query name used twice on a connection, and no scope in two trackers |
| `Configured.QueriesExactly` | internal/config/trackers.go:533-558 | No problem is reported of queries if and only if no two queries of one connection are named alike |
| `Configured.SinksExactly` | internal/config/worklog.go:78-114 | No problem is reported of sinks if and only if a tracker lists none, or the one there is where it can write worklogs |
| `Trackers.ValidateConnection` | internal/config/trackers.go:361-388 | Exactly this connection's problems, given the ones before |
| `Trackers.ValidateTracker` | internal/config/trackers.go:390-435 | Exactly this tracker's problems with scopes, writes, default, queries and sinks |
| `Trackers.ValidateAttributionSinks` | internal/config/worklog.go:78-114 | Exactly the sink lists that write to no Jira tracker or to nothing, and the sinks unknown or listed twice |
| `Trackers.ValidateQueryNames` | internal/config/trackers.go:533-558 | Exactly the queries whose name an earlier query on the same connection has |
| `Trackers.ValidateMirrorTo` | internal/config/trackers.go:437-480 | Exactly the mirror targets that are itself, unknown or not ready for a create |
| `Trackers.ValidateDefaultTicketIn` | internal/config/trackers.go:482-500 | Exactly the default destinations that are unknown or not ready |
| `Trackers.ValidateScopeOverlap` | internal/config/trackers.go:504-528 | Exactly the overlapping scope pairs of different trackers in one key space |
| `Routing.OneOwner` | internal/config/trackers.go:504-528 | In a valid configuration no scope belongs to two trackers |
| `Routing.RoutesExactly` | internal/config/trackers.go:258-269 | A scope routes to a tracker if and only if that tracker covers it |
| `Routing.OrderOfTrackersIrrelevant` | internal/config/trackers.go:258-269 | Reordering the trackers changes no route |
| `Routing.OverlapBreaksRouting` | internal/config/trackers.go:504-528 | From any overlap the validator reports there is a scope that two orders of the same trackers route differently |
| `Routing.RoutesSettledExactly` | internal/config/trackers.go:504-528 | With nothing else wrong, no order of the trackers changes a route if and only if the validator reports no overlap |
| `Routing.WritableHasWriter` | internal/config/writability.go:66-103 | Only a tracker whose connection has a writer is ever writable |
| `Routing.TakesExactly` | internal/config/destinations.go:118-136 | A repository is a tracker's work if and only if the key space, host and scope match |
| `Routing.UntrackedDestinations` | internal/config/destinations.go:66-114 | The plan of the located trackers, whichever order the repositories come in |
| `Routing.PlanUnique` | internal/config/destinations.go:66-114 | Only one plan belongs to a set of repositories |
| `Routing.NamedExactly` | internal/config/destinations.go:140-151 | Each named tracker with a default scope, once |
| `Routing.DestinationsNamed` | internal/config/destinations.go:140-151 | The named destinations in configured order |
| `Routing.DestinationsWritable` | internal/config/destinations.go:66-114 | Every destination passes the write check, on the tracker it names |
| `Routing.DestinationsDistinct` | internal/config/destinations.go:66-114 | No tracker is a destination twice |
| `Routing.DeniedByDefault` | internal/config/destinations.go:66-114 | Located work is ticketed at its own tracker if it takes creates and at each mirror, and nowhere else |
| `Worklogs.FindWorklog` | internal/clients/jira/tracker.go:61-100 | The last worklog under the key, or an error exactly when another key's worklog on the issue holds one of the messages |
| `Worklogs.Applier.MarkWorklogged` | internal/store/worklog.go:39-70 | All messages marked or none; no other marker overwritten |
| `Worklogs.Applier.CheckNotLogged` | internal/gate/applier.go:269-279 | Passes exactly when the ledger was read and no message is logged |
| `Worklogs.Applier.AddWorklog` | internal/gate/applier.go:269-295 | One attempt, whichever of its calls fail, as the specification says |
| `Worklogs.Applier.Apply` | internal/gate/applier.go:159-186 | The attempt and the action's recorded status |
| `WorklogFacts.AddedKeeps` | internal/gate/applier.go:269-295 | Any attempt keeps one worklog per key, no message twice on one issue, and every marker on a worklog recording it |
| `WorklogFacts.SuccessMarks` | internal/gate/applier.go:269-295 | Success means every message is marked in the worklog of the key |
| `WorklogFacts.RunKeeps` | internal/gate/applier.go:217-295 | The same over any run of approvals, and nothing recorded is taken back |
| `WorklogFacts.FinishedStays` | internal/gate/applier.go:217-295 | What a success recorded stays recorded |
| `WorklogFacts.RetryConverges` | internal/gate/applier.go:269-295 | After any failures one attempt without any leaves the messages marked in one worklog and at most one worklog added in all |
| `WorklogFacts.LoggedTwiceExactly` | internal/gate/applier.go:269-295 | After an attempt time is logged twice if and only if it was before, or every check passes and the tracker takes the add while another issue's worklog records one of the messages: all readable before the call |
| `WorklogFacts.RunLogsTwiceExactly` | internal/gate/applier.go:217-295 | Over any run of approvals, if and only if it was at the start or one of the approvals makes such an add |
| `WorklogFacts.LoggedTwiceHappens` | internal/gate/applier.go:269-295 | And it can: a lost mark followed by re-attribution to another issue |
| `PullRequest.ReadsWhatIsWritten` | internal/events/pull_request.go:24-66 | The reader returns unchanged whatever the writer writes |
| `PullRequest.AcceptsExactlyRefs` | internal/events/pull_request.go:38-66 | The reader accepts exactly the strings the writer writes for non-empty names without "/" or "#" and a positive number |
| `PullRequest.SameRef` | internal/events/pull_request.go:24-26 | Two identities are equal if and only if folded names and numbers are |
| `PullRequest.ReadIsRef` | internal/events/pull_request.go:38-66 | Whatever the reader accepts is some real pull request's identity |
| `PullRequest.ValueOfDecimal` | internal/events/pull_request.go:24-26 | A printed number reads back |
| `Text.SplitJoin` | internal/events/pull_request.go:38-66 | Cutting a join gives the parts back |
| `Text.JoinSplit` | internal/events/pull_request.go:38-66 | Joining the parts of a string gives it back |

## Left out

- Model calls, JSON decoding, fence and trailing-comma tolerance: a reply starts as decoded items.
- Prompt wording, rules text, logging, error texts: only the lengths of prompts and the kinds of failures are kept.
- Event summary capping: off by default, and it only shortens what an event renders.
- Token sums and the estimate of a prompt without its narratives left out: reporting only.
- Filing.ApplyPrepared: does not model compaction, because its recap is another model call's text: with it an extended narrative's summary is that recap and its boundary moves, and no link, window or status the pass writes depends on either. A narrative's boundary is read, never moved.
- Persist's returned rows and its counts of shared background: what is returned is each result's narrative id.
- I/O failures of the store: a transaction that fails for one is rolled back like any other.
- The order in which emptied narratives are listed and reported, and the order of holders in a fallback report.
- How context narratives are ranked and capped: any function of the rows found.
- The tracker-record filter before pre-assignment: candidates are any unlinked stored events.
- Slices shared between stages: clusters are values, so that settling disputes leaves its input alone is not a statement of the model.
- Sorting in place: RankCandidates inserts into a sequence. The order it proves is strict, so no sorting algorithm could return another.
- Extraction of issue keys from text, branches and Markdown: an event's mentions are given as lists, its own pull request left out.
- URL parsing: a connection carries the host its endpoint names.
- Reasons and remedies in writability answers and destination plans: prose.
- Worklog updates and deletes: a delete that reaches the tracker but fails to clear markers breaks the marker invariant until it is approved again.
- Comment, transition and create actions: each is one call with no state of its own to keep.
- Concurrent passes and concurrent applies: the pipeline's lease serializes them.
- Letters beyond ASCII, and Unicode case folding.
- Reconciler drafting, triage, collectors, leases and the command line.
