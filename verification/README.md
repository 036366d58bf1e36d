# A verified model of the workbench's rules

Artificer is a parametric CAD workbench. Around its geometry kernel stand
several modules that keep their rules free of the user interface: replaying a
document's feature history, resolving what a tool works on, recording a
session, placing components, running a script as it is typed, planning
machining, and writing interchange files. This project models those rules and
proves what they promise.

## How it is built

Code that changes things step by step is a method or a class whose
postcondition equates the result, or the new state, with a specification
function; the promises are then proved about the functions, for every input,
every run, or every interleaving. Pure code is functions and lemmas.

- **Replay** (`Document`, `Replay`, `ReplayTimeline`, `ReplayProvenance`,
  `ReplayRequests`, `ReplayRefusals`, `ReplayFixpoint`, `ReplayRepair`). A feature history is rebuilt from the
  empty snapshot into a private stage. The kernel and the resolvers are
  parameters. What is assumed of the kernel, `KernelContract`, is that a report
  names the snapshot asked for and the one returned, and that an id determines
  its snapshot; what is assumed of a document, `ValidDocument`, is what loading
  has checked: unique feature ids, dependencies earlier in the timeline, and a
  cursor within it. `ReplayRequests` says of every replayed feature which
  request was made of kernel and resolvers, and `ReplayRefusals` of every
  refusal which fact it reports. `ReplayRepair` is the loop that opens a
  document by suppressing what no longer builds.
- **Operands** (`Invocation`, `InvocationProperties`, `InvocationOrders`,
  `InvocationTurns`, `InvocationSources`, `InvocationSelections`,
  `InvocationRuns`). The same appetite is resolved against a selection, or
  collected pick by pick by an armed tool. When the two orders agree is settled
  for one role, for several roles, and for each schema the tools declare.
- **Recorder** (`Recorder`, `RecorderProperties`, `RecorderParts`, `Retention`,
  `Calendar`, `TimestampText`). A bounded queue between the window and a writer
  thread, as a state machine over every interleaving and every fault; the
  pruning of old sessions; the calendar behind the timestamps, and their text.
- **Placement** (`Quaternions`, `EulerFields`, `Assembly`, `PoseTolerance`,
  `PanelCommit`, `ComponentBounds`, `Insertion`). Numbers are real and quaternions unit. An
  angle is its sine and cosine of the half; `asin` and `atan2` are relations,
  known by what they return, so nothing is assumed about them beyond their
  meaning.
- **Script studio** (`LiveRun`, `LiveRunProperties`, `Utf8`, `Tokens`). The
  generation-numbered worker protocol, and the editor's colouring over bytes.
- **Machining** (`CamStudy`, `CamStudyProperties`, `Heightmap`). The card's
  staged and kept studies with the mesh kept for one motion, and the mesh of a
  milled stock.
- **STEP** (`StepExport`, `StepExportProperties`). The faceted writer, proved
  against a reader.

## What the proofs found

Most of these are places where the code does less than its comments, or than
one might expect; each has the exact condition under which it does as much.

- `invocation.rs:17-21` says the two orders of picking cannot drift apart. For
  one role they agree always if the role is harvested, and otherwise exactly
  when the picks and the document's active body come to the same thing
  (`LoneRoleAgreesExactly`). For several harvested roles of disjoint kinds they
  agree exactly when nothing is picked out of its role's turn
  (`RolesAgreeInTurn`). So five of the schemas agree on every selection
  (`HarvestedSchemasAgree`). A whole-body feature and a Boolean do not: they
  read the active body and not the selected one, so with no body active a
  selected body leaves the feature asking for a body that clicking it would
  give (`WholeBodyAgreesExactly`, `SelectedBodyIsPassedOver`,
  `BooleanAgreesExactly`). A role asking for more than it takes also parts the
  orders (`AgreementNeedsWellOrdered`); no tool has one.
- A planar face is the first live face, so order matters exactly when two live
  faces differ and one can be used (`FaceOrderMatters`). A full single role
  ignores a second click (`FullRoleCannotBeToggled`).
- A Boolean whose target is lost takes one of its tools as the target. A run
  keeps target and tools apart exactly while nobody picks a tool with the
  target missing (`BooleanOverlapsExactly`, `BooleanRunStaysApartExactly`).
- Sequence numbers have a gap exactly when a step loses a number to a failed
  write or rotation and that step or a later one then writes a record
  (`GapsAreFailures`); one failed write does it (`FailedWriteLeavesAGap`).
- `prune_sessions` runs off the end of its list exactly when what cannot be
  deleted is over the byte limit (`PruneSessions`). A file that will not delete
  counts as gone, so more than ten files may stay: exactly when, at some point
  where the list is down to ten but too few have really gone, the bytes left
  force no further deletion (`DiskAfterPruning`, `OldestMustDelete`).
- Timestamps sort as text exactly through year 9999 (`TextOrderHorizon`).
- `assembly.rs:315-317` promises that the preview between two poses reproduces
  the target "within canonical floating-point tolerance". It does: every entry
  of the rebuilt rotation is within 2e-10, twice the pose tolerance, and every
  point within that for each unit it reaches from the pivot, with one pose
  tolerance more for a preview so small that it is not applied
  (`FieldsWithinTolerance`, `PreviewWithinTolerance`, `PanelWithinTolerance`).
  It is exact, over the reals, precisely when the rotation fields suffice:
  always away from the lock, and within it only without a roll
  (`PoseInverse`, `NearLockLosesRoll`).
- The kept stock mesh is always right past the first motion. Within the first,
  the untouched stock can stay on show while the motion cuts, and the mesh is
  right exactly when the clock stood at rest at the rendering that built it
  as it stands at rest now, or the two meshes look alike (`MeshIsFresh`,
  `FirstMotionDrawsUntouchedStock`).
- A refused reorder leaves the plan swapped under the old program
  (`ExportMatchesPlan`), and confirming keeps the two apart
  (`RefusedReorderIsKept`); moving back heals it (`ReorderUndone`).
- `cam.rs:477-479` says a wall stands wherever two neighbours differ. Beside a
  block cut through to the bottom, the side of the next one is left open
  (`WalledExactly`, `CutThroughIsOpen`).
- Saving a script under a new path starts no run. A studio at rest with nothing
  pending shows the answer for its inputs exactly when the last save since its
  last start, if any, was to the path that start read
  (`RestAnswersNowExactly`); nothing but the path can be out of date
  (`OnlyThePathGoesStale`).

## Model

| member | source | states |
|---|---|---|
| Replay.HydrateModelDocument | apps/workbench/src/document_replay.rs:278-500 | The loop over active features, its archive, heads, skips and lists updated in place, computes the specification of hydration: first refusal wins, otherwise the finished stage |
| Replay.ReplayFeature | apps/workbench/src/document_replay.rs:307-490 | One feature's turn in place is one specified step: skip, refuse, or archive, advance heads and list |
| Replay.ExecuteChain | apps/workbench/src/document_replay.rs:520-545 | A chain keeps only its last outcome, refuses when empty, and stops at the first refusal |
| Replay.FindReplayInput | apps/workbench/src/document_replay.rs:579-653 | The snapshot a feature reads, from the heads of the branches it finds and the input it recorded |
| Replay.AdvanceHeads | apps/workbench/src/document_replay.rs:475-482 | Every branch head moves to the one output and no other head moves |
| Replay.ReplayFailureSticks | apps/workbench/src/document_replay.rs:307-490 | A prefix that fails to replay decides the outcome of every longer timeline |
| ReplayTimeline.OrderedIsTheOrderedSet | apps/workbench/src/document_replay.rs:655-676 | The branch list is the ordered set of the bodies named: ascending, no repeats, same members |
| ReplayTimeline.SharedHeadIsTheCommonHead | apps/workbench/src/document_replay.rs:601-627 | A shared head is found exactly when every body has a head and all heads are one snapshot |
| ReplayTimeline.SuppressionClosure | apps/workbench/src/document_replay.rs:286-329 | A feature is skipped exactly when it reaches, through dependencies, one suppressed itself or by its component; every other active feature is replayed after all it depends on |
| ReplayTimeline.SkipReasons | apps/workbench/src/document_replay.rs:307-329 | Every skip is recorded with the first reason that holds: its own switch, the first dependency skipped before it, or its component |
| ReplayTimeline.CursorPrefix | apps/workbench/src/document_replay.rs:289-490 | Hydrating at one position implies hydrating at every earlier one, to prefixes of the lists and a part of the archive |
| ReplayTimeline.TimelinePartition | apps/workbench/src/document_replay.rs:289-305 | Replayed, skipped and beyond-cursor features partition the timeline, each in timeline order |
| ReplayTimeline.ParametersUnread | apps/workbench/src/document_replay.rs:286-305 | A run none of whose features reads a parameter does not depend on them |
| ReplayProvenance.ProvenanceChain | apps/workbench/src/document_replay.rs:331-490 | In every successful hydration each feature reads what the latest earlier feature left on each of its bodies, or the empty snapshot if it creates them; heads are last outputs and all are archived |
| ReplayProvenance.CommandsReproduce | apps/workbench/src/document_replay.rs:45-58 | Running a feature's recorded commands on the snapshot it started from yields exactly the snapshot and report the document holds |
| ReplayProvenance.BooleanAdvancesTarget | apps/workbench/src/document_replay.rs:440-470 | A replayed Boolean has its target as its only branch, and leaves the head of a different tool body alone |
| ReplayRequests.HydrationIsExplained | apps/workbench/src/document_replay.rs:331-500 | In every successful hydration each feature acts on the bodies its node names, starts where it should, and holds the kernel's answer to the request its action stands for: a Boolean is asked of the target's snapshot and what the latest feature on the tool left, a chain link by link, a recipe bound and resolved first, a persistent target found in the reports before; a clean feature's record is what replay made |
| ReplayRefusals.RefusalIsExplained | apps/workbench/src/document_replay.rs:331-653 | A document that hydrates at one position and not at the next is refused for what the next feature meets: parameters that do not evaluate, bodies created and found at once or with no common head, a recipe, target or command that the resolvers or the kernel refused, or a clean record that differs |
| ReplayFixpoint.ReplayFixpoint | apps/workbench/src/document_replay.rs:555-577 | Storing every replayed association and marking its feature clean gives a document that hydrates to the same archive, heads, skips and results, with every replayed feature verified |
| ReplayFixpoint.CommitIsIdempotent | apps/workbench/src/document_replay.rs:547-577 | Committing what the second run found writes the document it read |
| ReplayFixpoint.InputUnchanged | apps/workbench/src/document_replay.rs:579-653 | The committed, clean node finds the input the dirty one found, branch-less markers included |
| ReplayRepair.HydrateSuppressingUnbuildable | apps/workbench/src/lib.rs:4251-4280 | The retry loop computes the recursive specification of opening |
| ReplayRepair.RefusalIsFirstFailure | apps/workbench/src/document_replay.rs:233-261 | A refusal that names a feature names the one at the first position that does not replay |
| ReplayRepair.SuppressingMarks | crates/model/src/lib.rs:2261-2278 | Suppressing a feature marks it and exactly the features that depend on it, through others or at once, for rebuilding |
| ReplayRepair.OpeningSuppressesForward | apps/workbench/src/lib.rs:4245-4280 | Opening suppresses, in timeline order, only features that were on and may be edited, moves nothing else but rebuild marks, and ends with a document that hydrates to its end |
| Invocation.ResolveOneSchema | apps/workbench/src/invocation.rs:347-445 | The loops over roles and live items, with their array of taken marks, compute the specified resolution |
| Invocation.HarvestSymmetric | apps/workbench/src/invocation.rs:368-412 | One role's pass over the live items settles exactly what the specification settles, marks included |
| Invocation.Resolve | apps/workbench/src/invocation.rs:320-345 | The first complete reading wins; failing all, the preferred reading's answer stands |
| Invocation.ArmedTool.Offer | apps/workbench/src/invocation.rs:653-700 | A pick binds, comes off, is refused with its reason, or is ignored, for the role being waited for |
| Invocation.ArmedTool.Revalidate | apps/workbench/src/invocation.rs:702-717 | At a new revision the bindings that no longer resolve move to the stale list |
| InvocationProperties.ToolFirstIsSelectionFirst | apps/workbench/src/invocation.rs:17-21 | For one harvested role and distinct live items, picking one by one gives the resolver's rejections, and its bindings and readiness when nothing is rejected |
| InvocationProperties.AgreementNeedsWellOrdered | apps/workbench/src/invocation.rs:118-136 | A role that asks for more than it takes parts the two orders |
| InvocationOrders.LoneRoleAgreesExactly | apps/workbench/src/invocation.rs:347-445 | For a role alone, picking distinct items one by one binds and rejects what the resolver does on all of them iff the role is harvested, or it is never harvested and would take none of them, or it reads the active body and would take that alone of them, or nothing if that does not serve |
| InvocationOrders.AgreementShows | apps/workbench/src/invocation.rs:347-445 | Where the orders agree on live items, the resolver is complete, refuses or asks for more exactly as the armed tool is satisfied, has refused or still waits, with the same bindings in every role |
| InvocationTurns.RolesAgreeInTurn | apps/workbench/src/invocation.rs:653-700 | For harvested roles of distinct ids and disjoint kinds, the two orders agree iff no item comes that a role would take or refuse while the tool is taking picks for another |
| InvocationProperties.TwoRolesCanDrift | apps/workbench/src/invocation.rs:17-21 | The smallest case out of turn: an edge offered before a face is dropped when picked but harvested when selected beforehand |
| InvocationSources.HarvestedSchemasAgree | apps/workbench/src/invocation.rs:782-840 | Edge finish, planar face, face push-pull, sketch relation and sketch extrusion agree in both orders on every selection |
| InvocationSources.WholeBodyAgreesExactly | apps/workbench/src/invocation.rs:541-551 | A whole-body feature agrees iff the first body picked is the active editable one, or none is picked and none is active to edit |
| InvocationSources.SelectedBodyIsPassedOver | apps/workbench/src/invocation.rs:377-388 | With no active body, a selected editable body leaves a whole-body feature needing operands, though picking it satisfies the tool |
| InvocationSources.BooleanAgreesExactly | apps/workbench/src/invocation.rs:753-772 | A Boolean agrees iff the bodies picked are just the active editable one, or none when there is no such one |
| InvocationProperties.FullRoleCannotBeToggled | apps/workbench/src/invocation.rs:653-661 | A lone full role ignores every pick, even one it holds |
| InvocationSelections.SelectionConserved | apps/workbench/src/invocation.rs:347-445 | Every selected item ends in exactly one of bound (to one role), rejected, stale or extraneous, and no role exceeds its maximum |
| InvocationSelections.EdgeFinishResolution | apps/workbench/src/invocation.rs:453-474 | An edge finish completes iff some live item is an edge and all live edges are on one editable body, binding exactly those in order |
| InvocationSelections.EdgeFinishIgnoresOrder | apps/workbench/src/invocation.rs:514-524 | Every permutation of a selection has the same kind of outcome and the same bound multiset |
| InvocationSelections.PlanarFaceResolution | apps/workbench/src/invocation.rs:477-493 | A planar-face feature is decided by the first live face alone |
| InvocationSelections.FaceOrderMatters | apps/workbench/src/invocation.rs:389-392 | Some order of a selection changes the outcome iff two live faces differ and one of them can be used |
| InvocationRuns.PickMeans | apps/workbench/src/invocation.rs:653-700 | A pick goes to the first role that is short, or else the last with room: what it holds comes off, what it accepts is added, what it refuses is noted with the reason, and the answer tells whether its items changed; no other role is touched |
| InvocationRuns.AsksForTheFirstShort | apps/workbench/src/invocation.rs:419-445 | A resolution that needs operands asks for the first role that is short; it is complete only when none is and nothing was refused |
| InvocationRuns.RevalidateMovesTheLost | apps/workbench/src/invocation.rs:214-234 | Revalidation keeps exactly the resolving bindings, in order, and moves exactly the lost ones; at the same revision it does nothing |
| InvocationRuns.ArmedFinishStaysOnOneBody | apps/workbench/src/invocation.rs:653-717 | Every run of picks and document moves keeps an armed finish's edges distinct and on one body |
| InvocationRuns.PickTwiceRestores | apps/workbench/src/invocation.rs:679-700 | Picking an edge that binds and picking it again restores the tool |
| InvocationRuns.BooleanOverlapsExactly | apps/workbench/src/invocation.rs:719-741 | A pick puts one body in both roles iff the target is missing and the pick is an editable body held as a tool |
| InvocationRuns.BooleanRunStaysApartExactly | apps/workbench/src/invocation.rs:653-741 | From a tool with no body in both roles, a run of picks and document moves keeps it so at every prefix iff no pick puts a held tool where the target is missing |
| InvocationRuns.LostTargetLetsAToolBeTarget | apps/workbench/src/invocation.rs:719-725 | That overlap is reached by losing a target to a rebuild and picking the tool again |
| Recorder.DevelopmentRecorder.TryEnqueue | apps/workbench/src/development_log.rs:218-237 | Never waits: a full queue only counts the event as dropped |
| Recorder.DevelopmentRecorder.ReceiveEvent | apps/workbench/src/development_log.rs:408-512 | One turn of the writer, with drop report, rotation, numbering, flush and every failure, is the specified step |
| Recorder.DevelopmentRecorder.AppendDroppedRecord | apps/workbench/src/development_log.rs:513-538 | Reports and clears the drop counter if anything was dropped |
| Recorder.DevelopmentRecorder.AppendRecord | apps/workbench/src/development_log.rs:540-558 | A record goes to the file and the crash ring, or to neither |
| Recorder.RecordSession | apps/workbench/src/development_log.rs:408-512 | A recorder driven through any interleaving reaches the state the run specifies |
| RecorderProperties.CrashTailIsEndOfLog | apps/workbench/src/development_log.rs:540-558 | At every moment of every session, faults included, the crash ring is the last 256 records of the log or all of it |
| RecorderProperties.SequenceNumbersSpentOnce | apps/workbench/src/development_log.rs:408-558 | Whatever fails, numbers rise along the log and each is on exactly one record or was spent on one that no file took |
| RecorderProperties.LogFollowsFates | apps/workbench/src/development_log.rs:408-558 | Reading the steps alone, for each number spent whether its record reached a file tells which numbers the log holds, in order, and which were lost |
| RecorderProperties.GapsAreFailures | apps/workbench/src/development_log.rs:455-500 | The log is numbered 1, 2, 3 and on iff no step loses a number to a failed write or rotation before a write that a file takes in that step or a later one |
| RecorderProperties.FailedWriteLeavesAGap | apps/workbench/src/development_log.rs:455-500 | One event whose write fails leaves a log whose only record, the closing one, is numbered 2 |
| RecorderProperties.ShutdownAccountsForEverything | apps/workbench/src/development_log.rs:383-558 | After a faultless session has shut down, attempts equal events logged plus drops reported, in order of acceptance, numbered from one across parts |
| RecorderProperties.RunningAccountBalances | apps/workbench/src/development_log.rs:218-237 | Before shutdown the same account balances with what is queued and what is still to be reported, and the queue keeps its bound |
| RecorderParts.NoEventInAFullPart | apps/workbench/src/development_log.rs:429-446 | By the sizes on the steps, no event in any session is added to a part whose records before it come to eight mebibytes |
| RecorderParts.PartsOpenExactly | apps/workbench/src/development_log.rs:429-446 | A part is opened exactly when an event comes to a part that is full or old and the new file opens; earlier parts never change, and a part that is over takes no further event |
| RecorderParts.CriticalEventsNeverWait | apps/workbench/src/development_log.rs:462-475 | In every session fewer than 64 logged events wait for a flush, and none that asked for one |
| RecorderParts.FlushesExactly | apps/workbench/src/development_log.rs:466-472 | After an event is logged nothing waits iff it asked for a flush, one was due, or 63 others waited |
| RecorderParts.DropsExactlyWhenFull | apps/workbench/src/development_log.rs:218-237 | Before a fault an attempt is dropped iff 2048 accepted events are still to be logged |
| Retention.PruneSessions | apps/workbench/src/development_log.rs:620-649 | The loop stops at the first time both limits are met, and runs out of files iff what cannot be deleted is over the byte limit |
| Retention.DeletingKeepsNewest | apps/workbench/src/development_log.rs:638-647 | When deletes succeed, what is kept is the longest run of newest files within both limits |
| Retention.DiskAfterPruning | apps/workbench/src/development_log.rs:620-649 | What stays on disk is within the byte limit always, and within the file limit iff, wherever the list is down to the limit but too few files could be deleted, the bytes left are over theirs |
| Retention.OldestMustDelete | apps/workbench/src/development_log.rs:620-649 | A directory within the file limit stays so; one over it comes within it if the oldest over the limit all delete, and only if they do when the rest is within the byte limit |
| Retention.OneStuckStaysOver | apps/workbench/src/development_log.rs:639-646 | Eleven small files whose oldest will not delete stay eleven |
| Calendar.CivilFromDays | apps/workbench/src/development_log.rs:768-782 | Every integer day converts to a date of the proleptic Gregorian calendar, the one with that day number |
| Calendar.DateIsTheCivil | apps/workbench/src/development_log.rs:768-782 | A day converts to a date iff the date is valid and has that day number: conversion and count are inverse both ways |
| Calendar.CivilFollowsTheCalendar | apps/workbench/src/development_log.rs:768-782 | The next day's date is the successor of the day's date by the rules of the calendar |
| Calendar.SuccessorIsNextDay | apps/workbench/src/development_log.rs:768-782 | The calendar's own successor rule and the day count agree |
| Calendar.TimestampKeepsOrder | apps/workbench/src/development_log.rs:756-766 | Timestamp fields order exactly as time, so never repeat |
| TimestampText.TextKeepsOrder | apps/workbench/src/development_log.rs:756-766 | Through year 9999 the strings order exactly as time, as section 5.1 of RFC 3339 relies on |
| TimestampText.TextOrderHorizon | apps/workbench/src/development_log.rs:756-766 | Strings sort as time up to a horizon iff the horizon is within year 9999 |
| Quaternions.MultiplyAssociates | apps/workbench/src/assembly.rs:521-530 | The product is associative |
| Quaternions.UnitProduct | apps/workbench/src/assembly.rs:521-546 | Products of unit quaternions are unit, so renormalising changes nothing |
| Quaternions.RotateIsSandwich | apps/workbench/src/assembly.rs:548-561 | The two cross products are the sandwich product with the conjugate |
| Quaternions.RotateComposes | apps/workbench/src/assembly.rs:521-561 | Rotating by a product is rotating by its factors in turn |
| Quaternions.RotateUndoes | apps/workbench/src/assembly.rs:532-561 | The conjugate undoes a rotation, in either order |
| Quaternions.RotateIgnoresSign | apps/workbench/src/assembly.rs:548-561 | Opposite quaternions turn vectors alike |
| EulerFields.EulerTurns | apps/workbench/src/assembly.rs:487-499 | The fields turn a vector about X, then Y, then Z |
| EulerFields.FieldsRoundTrip | apps/workbench/src/assembly.rs:487-519 | Fields read off a rotation rebuild it, up to sign, iff the pitch is clear of the lock or there is no roll to lose |
| EulerFields.NearLockLosesRoll | apps/workbench/src/assembly.rs:505-517 | Within the tolerance of the lock but short of the right angle, fields come back exactly iff they have no roll |
| EulerFields.HalfRollReadsAsYaw | apps/workbench/src/assembly.rs:505-517 | Within the lock, a roll of half a turn is read back as a yaw of half a turn |
| EulerFields.NearLock | apps/workbench/src/assembly.rs:505-517 | A concrete rotation, the fields read off it, and that they rebuild another rotation |
| PoseTolerance.FieldsWithinTolerance | apps/workbench/src/assembly.rs:487-519 | Fields read off any rotation, locked or not, rebuild it to within twice the pose tolerance in all nine entries of its matrix |
| Assembly.PreviewMovesPoints | apps/workbench/src/assembly.rs:281-313 | The composed pose puts every local point where turning about the pivot and then moving puts its old place |
| Assembly.CompositionOutcome | apps/workbench/src/assembly.rs:285-313 | A grounded component never moves; composing is refused as grounded iff it is and one of the six numbers is past the tolerance, as out of range iff the moved origin is, and leaves the pose if none is past it |
| Assembly.PoseInverse | apps/workbench/src/assembly.rs:285-342 | For any valid poses and pivot, composing the preview between them reaches the target pose iff its rotation fields suffice, unless the preview is within identity tolerance |
| Assembly.PanelRoundTrip | apps/workbench/src/assembly.rs:206-231 | A pose's panel fields give the pose back iff they suffice for its rotation |
| PoseTolerance.PreviewWithinTolerance | apps/workbench/src/assembly.rs:285-342 | Composing the preview between two valid poses takes every point to within twice the pose tolerance of its place under the target for each unit of its reach from the pivot, and the pose tolerance besides where the preview is within identity tolerance and the pose stays |
| PoseTolerance.PanelWithinTolerance | apps/workbench/src/assembly.rs:206-231 | Committing the panel fields as read is not refused and leaves every point within twice the pose tolerance for each unit of its reach |
| PanelCommit.CommitOutcome | apps/workbench/src/assembly.rs:232-242 | Confirming the panel's fields is refused as out of range iff the translation is, and as grounded iff the component is and the fields move it past the tolerance, or turn it by an angle whose half has a cosine that far from one; otherwise a grounded component stays exactly as it is and any other takes the fields' pose |
| PanelCommit.GroundedFieldsStay | apps/workbench/src/assembly.rs:232-242 | The fields read off any grounded component, at the lock or anywhere, are never taken for a move when confirmed: the component stays |
| Assembly.CanonicalChoosesOne | crates/model/src/components.rs:262-288 | The canonical sign picks one of each pair of opposite quaternions |
| Assembly.CanonicalLeads | crates/model/src/components.rs:262-288 | The canonical quaternion's first number that is not zero is positive |
| ComponentBounds.WorldBoundsAreLeast | apps/workbench/src/assembly.rs:345-390 | A box takes in the image of every point of the local box iff it encloses the world bounds: they contain the component and every side is attained |
| ComponentBounds.WorldBoundsAreSolid | apps/workbench/src/assembly.rs:345-390 | The world bounds of a turned solid box are solid, so placement never refuses them |
| Insertion.PoseIgnoresOrder | apps/workbench/src/assembly.rs:245-279 | The initial pose, refusals included, does not depend on the order of the occupied boxes |
| Insertion.InsertionClears | apps/workbench/src/assembly.rs:250-279 | The new box clears every occupied box by the clearance on X, stands at zero on Y and Z, and is no further along than one of them or the origin asks |
| Insertion.RowOfComponents | apps/workbench/src/assembly.rs:239-279 | Any sequence of insertions from none stands in a row from the origin, each exactly its clearance past its predecessor and at least that past all others |
| LiveRun.Studio.Start | apps/script-studio/src/lib.rs:1256-1291 | Starting cancels the worker in hand, numbers a new generation and takes the inputs as they are |
| LiveRun.Studio.PollWorker | apps/script-studio/src/lib.rs:1293-1305 | Draining the channel takes in the arrivals one by one |
| LiveRun.Studio.AdoptOutcome | apps/script-studio/src/lib.rs:1307-1333 | A run that failed before building keeps the model shown before it |
| LiveRunProperties.OnlyNewestIsAdopted | apps/script-studio/src/lib.rs:1293-1305 | Under every interleaving only the newest generation is adopted, while awaited, and adopted generations rise |
| LiveRunProperties.RunningIsOwedAnAnswer | apps/script-studio/src/lib.rs:1256-1305 | A running studio's newest run is either alive and uncancelled or has one uncancelled outcome on the way |
| LiveRunProperties.RestAnswersLastStart | apps/script-studio/src/lib.rs:1256-1333 | A studio at rest shows the answer to its last start, which read the text now in the editor unless an edit is waiting |
| LiveRunProperties.ModelOnShow | apps/script-studio/src/lib.rs:1307-1333 | The scene and the snapshot shown are those of the latest adopted run that built something or had no error; none while there is no such run |
| LiveRunProperties.OnlyThePathGoesStale | apps/script-studio/src/lib.rs:1256-1333 | In every reachable studio at rest with nothing pending, the answer shown is for the current inputs iff its start read the current path |
| LiveRunProperties.RestAnswersNowExactly | apps/script-studio/src/lib.rs:1375-1393 | There, the answer shown is that of the inputs at the last start, and is current iff no save since then, or the last of them, went to another path than that start read |
| LiveRunProperties.SavingLeavesTheOldAnswer | apps/script-studio/src/lib.rs:1375-1393 | Such a run: at rest after saving under a new path, showing the answer for the old one |
| LiveRunProperties.PollReceives | apps/script-studio/src/lib.rs:1293-1305 | A poll is as many single arrivals as were waiting, and leaves none |
| Utf8.WellFormedExactly | apps/script-studio/src/lib.rs:742-747 | The strings taken for well formed are exactly the encodings of characters, by section 3 of RFC 3629: none too long, no surrogate, none past the last character |
| Utf8.BoundarySplits | apps/script-studio/src/lib.rs:742-747 | A well-formed string, by section 4 of RFC 3629, splits into two well-formed ones exactly at bytes that do not continue a character |
| Utf8.NextBoundary | apps/script-studio/src/lib.rs:742-747 | From a boundary, the width of the leading byte leads to the next boundary |
| Tokens.NextToken | apps/script-studio/src/lib.rs:701-750 | One pass of the scan finds a token that meets the declarative rule for its kind |
| Tokens.HighlightTokens | apps/script-studio/src/lib.rs:695-753 | For every well-formed source the scan ends with tokens lying end to end over the whole source |
| Tokens.TilingIsUnique | apps/script-studio/src/lib.rs:695-753 | There is one such tiling, so the rules for the kinds determine the colouring |
| Tokens.KindsByTheirText | apps/script-studio/src/lib.rs:701-750 | A token's kind is told by the text where it starts: two slashes, a quotation mark, a digit, white space, a letter or underscore; comments, numbers, words and white space are the longest runs of their characters |
| Tokens.WordsByTheirSpelling | apps/script-studio/src/lib.rs:724-738 | A token is a word iff it starts as one; it is a keyword iff it spells one, a builtin iff it spells a builtin and no keyword |
| Tokens.TokensRebuildTheSource | apps/script-studio/src/lib.rs:695-753 | The tokens joined are the source and each is a string of whole characters |
| Tokens.PunctuationIsOneCharacter | apps/script-studio/src/lib.rs:742-747 | A punctuation token holds one character: no cut falls inside it |
| Tokens.ScanFindsClose | apps/script-studio/src/lib.rs:710-718 | The string scan, which skips what follows a backslash, stops at the first mark with an even run of backslashes before it, or at the end |
| CamStudy.CamCard.MoveCamOperation | apps/workbench/src/cam.rs:1415-1444 | The operation moves one place and the tools are rebuilt in order of first use before the rerun, whatever comes of it |
| CamStudy.CamCard.CamOverlay | apps/workbench/src/cam.rs:892-931 | The mesh kept is drawn when motion and staging match, and rebuilt otherwise |
| CamStudy.CamCard.RerunCamStudy | apps/workbench/src/cam.rs:777-801 | A rerun replaces the study in front, rewinds and drops the mesh, or changes nothing when refused |
| CamStudy.CollectTools | apps/workbench/src/cam.rs:1431-1443 | The loop collects the tools called for, in order of first use |
| CamStudyProperties.RenderingShowsStock | apps/workbench/src/cam.rs:892-931 | A rendering that builds a mesh draws the untouched stock iff nothing has been cut, by the ends of the motions and the clock, and otherwise the stock after the first motion to end at or after the clock, or the last; a mesh reused is of that motion |
| CamStudyProperties.MeshIsFresh | apps/workbench/src/cam.rs:900-931 | Over all runs, a mesh taken for current shows the stock as cut by the clock iff the clock is at rest now as it was at the last rendering that rebuilt it, or the untouched stock and that after motion 0 look alike; past motion 0 it is the stock after that motion |
| CamStudyProperties.FirstMotionDrawsUntouchedStock | apps/workbench/src/cam.rs:903-915 | A run in which the untouched stock stays on show while the first motion cuts |
| CamStudyProperties.ClockStaysInProgram | apps/workbench/src/cam.rs:1458-1462 | Over all runs the card holds one study at most, staged or kept, with the clock within its program |
| CamStudyProperties.CardFollowsEvents | apps/workbench/src/cam.rs:660-815 | Whether the card holds a study, and whether it is kept, by the stagings, confirmations and cancels alone |
| CamStudyProperties.CancelLeavesNothing | apps/workbench/src/cam.rs:814-820 | Cancelling a staged study, whatever was on the card before and however it was replanned, reordered, scrubbed and rendered since, leaves the card as new |
| CamStudyProperties.ExportMatchesPlan | apps/workbench/src/cam.rs:777-801 | Over all runs, the kept program is its plan's own iff that plan can be posted |
| CamStudyProperties.RefusedReorderIsKept | apps/workbench/src/cam.rs:1415-1444 | For every study whose plan cannot be posted with its first operation moved later, staging, moving and confirming keeps the moved plan with the old program |
| CamStudyProperties.MovesOnePlace | apps/workbench/src/cam.rs:1415-1431 | An operation changes places with the one before or after it, and is refused only at that end of the list or past it |
| CamStudyProperties.ReorderUndone | apps/workbench/src/cam.rs:1415-1444 | Moving an operation back restores the study exactly, even after a refusal, when its tools stood in order of first use |
| CamStudyProperties.KeptAnswer | apps/workbench/src/cam.rs:1431-1443 | The rebuilt tools answer for exactly the numbers called, as the old ones did |
| Heightmap.Coarsen | apps/workbench/src/cam.rs:480-495 | For any block size, each block stands as high as its lowest cell |
| Heightmap.CoarseStaysBelow | apps/workbench/src/cam.rs:480-495 | Every cell lies in a block and the block is no higher |
| Heightmap.HeightmapFaces | apps/workbench/src/cam.rs:504-567 | The nested loops push, each once, exactly these faces: the top of every block over the bottom, its left and near side at the edge of the grid and, if it stands over the level, its right and far side there, all from the bottom up, and a wall to each right and far neighbour of another height |
| Heightmap.WalledExactly | apps/workbench/src/cam.rs:477-479 | A wall stands wherever two neighbours differ iff no block cut through has a different one to its right or beyond it |
| Heightmap.CutThroughIsOpen | apps/workbench/src/cam.rs:507-510 | A slot cut through a plate is drawn open on its right side |
| StepExport.WriteFacetedStep | apps/workbench/src/export.rs:52-127 | The loops write exactly the specified data section, or refuse as validation says |
| StepExport.RefusedExactly | apps/workbench/src/export.rs:219-238 | An export is refused iff there are no triangles, more than five million, or a coordinate that is not finite, in that order |
| StepExportProperties.NumberedInOrder | apps/workbench/src/export.rs:73-127 | Entities are numbered from 1 to the last, once each, in order |
| StepExportProperties.ReferencesAreDefined | apps/workbench/src/export.rs:61-127 | Every reference names an entity defined on an earlier line, as a data section of ISO 10303-21 needs |
| StepExportProperties.StepReadsBack | apps/workbench/src/export.rs:46-127 | Following references from the last entity finds the shape of a product definition and a geometric context with its units, and reads back one shell a body with exactly its triangles' corners, in order |
| StepExportProperties.ShellsPartitionTheFaces | apps/workbench/src/export.rs:103-113 | There is one shell for each body drawn, in ascending order, and as many faces in all as triangles |

## Left out

- PoseInverse: over the reals; rounding, and the renormalisation of quaternions that have drifted from unit length, are not modelled.
- PreviewWithinTolerance: an angle's radians are known only as no shorter than twice the sine of the half; only the identity tolerance reads them.
- AppendRecord: a newline that fails after its record was written leaves the record's bytes in the file; the model leaves the file as it was.
- PruneSessions: the panic of removing from an empty list is the outcome `RanOutOfFiles`; reading the directory is a parameter.
- HydrateModelDocument: recipe resolution (regions, lofts, sweeps, datum references) is a parameter, and errors keep the case and the feature but not their messages.
- HighlightTokens: sources that are not well-formed UTF-8 cannot occur in the original's string type.
- Coarsen: any block size of one or more; the square root that chooses it is not modelled.
- HeightmapFaces: a face stands for two triangles; their corners' transform into the world is not modelled.
- WriteFacetedStep: entities are records; the text of numbers and the header section are not modelled.
- RecordSession: wrap-around of 64-bit counters is not modelled; sizes of records and outcomes of writes, flushes and rotations are chosen by the steps.
- RolesAgreeInTurn: roles that judge an item by what another role holds, or share a kind, are settled only for the schemas the tools declare.
- Arming a tool and its prompt text, status lines, panels, dialogs and theme: presentation.
- Scrubbing by the playback clock: the same state change as setting the time.
- The geometry kernel, the planner and the simulators: parameters.
- The file name form of a timestamp, the panic hook, mouse gesture capture and payload formatting.
- The customizer's refresh and the debounce of edits: an edit is an event that leaves a run pending.
- Reading files, atomic writes, STL and DXF: no numbering or references to prove.
- `shell.rs`, `documents.rs`, `browser.rs`, `material.rs`, command tables and the command-line programs: thin wrappers or tables.
