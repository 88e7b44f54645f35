# Proofs about a flight-log and aircraft-ownership application

This project models the parts of the application where a mistake would be hard
to see, and proves what they promise.

* **GPS logs.** Parsed fixes are cleaned of bad positions (`BadFixes.dfy`,
  `CleaningFacts.dfy`) and given speeds (`Speeds.dfy`); the merged,
  time-ordered track is split into flights and ground sessions (`Split.dfy`,
  `SplitFacts.dfy`), each group gets its airborne periods and landings
  (`Airborne.dfy`, `AirborneFacts.dfy`, `FlownFacts.dfy`, `Segments.dfy`,
  `SegmentFacts.dfy`), segments that one logbook flight records as one are
  joined (`Merge.dfy`, `MergeFacts.dfy`, `Pipeline.dfy`), the stored track is
  thinned (`Downsample.dfy`) and logbook flights are ranked against a segment
  (`Ranking.dfy`, `StableSort.dfy`).
* **GPS review.** Confirming, skipping, confirming all and saving the prefilled
  flight form (`Review.dfy`, `ReviewFacts.dfy`).
* **Database migrations.** The chain check and its depth-first walk
  (`Chain.dfy`, `Migrations.dfy`).
* **Weight and balance.** The loaded CG and the envelope test (`Envelope.dfy`,
  `EnvelopeFacts.dfy`).
* **Money and shares.** Pro-rating of expenses (`Costs.dfy`), replacing the
  co-owners of an aircraft (`Owners.dfy`, `Ownership.dfy`) and dividing a fixed
  expense among them (`Billing.dfy`).
* **File sync.** The scanner of the upload folder (`Watcher.dfy`,
  `WatcherFacts.dfy`), and importing or ignoring what it queues
  (`Reconcile.dfy`).
* **Track images.** The map projection (`Projection.dfy`).

Where the code loops, the model loops: a method with the same branches is
proved against a declarative specification that does not mention its loop
(`Split.IsSplit`, `Airborne.IsPeriods`, `Merge.IsMerge`, `BadFixes.IsCleaned`,
`Watcher.IsScan`), and the lemmas are about that specification. Several of them
are shown to determine the result completely (`SplitIsUnique`, `PeriodsUnique`,
`CleanedUnique`, `RunsUnique`, `ReferenceUnique`).

Conventions: track time is an integer number of microseconds, dates are day
numbers, money and rounding are exact, coordinates, speeds and weights are
reals, distance is any function, a missing value is `None`. `Sequences.dfy`,
`Rounding.dfy`, `Options.dfy` and `Track.dfy` hold what several modules share.

## Where the code and its documentation differ

The model follows the code.

* `downsample_track` documents at most `max_points` points. It keeps
  `max_points + 1` for every track of more than one and a half times
  `max_points`, and for one exactly that long with an even length
  (`Downsample.KeptCount`, with a concrete case in `Downsample.OneTooMany`).
* `resolve_period` documents a window of `round(period_months * 365 / 12)` days.
  Both ends are included, so for every positive number of months it counts the
  expenses of one date more (`Costs.WindowOneDateTooLong`): 366 dates, not 365,
  for the default of twelve months (`Costs.TwelveMonthsCount366Dates`).
* `_break_points` says that the taxi-in carries the first flight's landing. When
  the aircraft moves slowly for five minutes or more without ever parking, the split
  leaves all of it out, and the landing before it is not counted, as at a recording
  gap: exactly when, in `FlownFacts.UncountedIff`. `FlownFacts.LandingLost` is a track with two
  landings whose segments have one.
* A coverage span stored with its end before its start is counted in full when
  one reporting period holds both ends and is otherwise in no report at all
  (`Costs.ReversedSpanCounted`). The expense form refuses such a span
  (app/expenses/form_parsing.py:106-117); the dashboard code itself does not.
* `_build_gif_projection` documents two unique points; it requires two points,
  equal or not.
* An orphan error without a cycle error does not only mean a detached revision:
  with complete references and one head, some revision is out of the head's
  reach exactly when there is a cycle away from it
  (`Migrations.VisitedAllIffAcyclic`).
* Beside a cycle error the revisions reported as "not reachable from head" can be
  reachable, because the walk stops at the first cycle. For H with parents A and
  B, A its own parent and B the root, B is reported
  (`Migrations.ReportReachedOrphan`). The list is right whenever the head reaches
  no cycle, and otherwise exactly if no revision on the way to the cycle has a
  parent listed later that is neither on that way nor reached by a parent listed
  before it (`Migrations.OrphansExactIff`).
* Rectangular envelopes and the scalar limits disagree on the aft and the upper
  boundary and below the lowest drawn weight; there only the limits accept
  (`EnvelopeFacts.RectangleAgreesWithLimits`).
* Saving the prefilled flight form decides a segment of the GPS review without the
  tests of the review's own routes (app/flights/routes.py:1924-1937). It is not
  counted as an import, it replaces a decision already made, a segment saved again
  gets a second flight, and a session in which it made the last decision goes on
  (`ReviewFacts.FormSavesOnly`; exactly when, in `EveryRunConsistent`,
  `DecisionsAreFinal`, `OneFlightPerSegment` and `SessionEnds`). Confirming all then
  ends the session, unless a form was saved with an index that names no segment.
  That index is not checked against the list. Such a save can end the session with
  a segment undecided (`ReviewFacts.StraySaveEndsEarly`), or, once everything is
  decided, keep it from ever ending (`ReviewFacts.StuckForever`,
  `ReviewFacts.StraySaveNeverEnds`). The page that leads to the form does check it
  (app/aircraft/routes.py:2939-2941).
* The co-owner with the largest share "absorbs the rounding residue" of a fixed
  expense; that can be a credit. A hundred owners of 1.00 percent pay a cent each of
  0.50, and the last is credited 0.49 (`Billing.LastCredited`; exactly when, in
  `Billing.LastNotNegativeIff`).
* Importing a queued file does not look whether it was imported before. Done twice,
  it gives the file two documents (`Reconcile.ImportedTwice`); over a run no path has
  two documents exactly if no entry is imported twice
  (`Reconcile.OneDocumentPerPath`).

## Model

| member | source | states |
|---|---|---|
| Split.Split | app/aircraft/gps_import.py:597-680 | the jumping-index loop delivers exactly the groups between all recording gaps and the stops of all long slow stretches, each cut once and in order |
| Split.BreakPoints | app/aircraft/gps_import.py:689-738 | a long stretch is cut at its first and last recording gap, else at the two ends of its longest stop (the first of equals), else left out whole |
| Split.StretchUnique | app/aircraft/gps_import.py:641-668 | no two long stretches overlap, so each is cut in one way only |
| SplitFacts.GroupsInOrder | app/aircraft/gps_import.py:597-680 | groups are non-empty, in order, from the first point to the last; only neighbours can share a point, at most one, and it is a parked one |
| SplitFacts.NoGapInGroup | app/aircraft/gps_import.py:597-686 | no group contains a recording gap of 300 s or more |
| SplitFacts.FastInExactlyOneGroup | app/aircraft/gps_import.py:597-680 | every point at 30 kt or more is in exactly one group |
| SplitFacts.DroppedPoint | app/aircraft/gps_import.py:689-738 | a point in no group lies inside a long slow stretch and was parked, or the aircraft never parked in that stretch |
| SplitFacts.CutAtLongestStop | app/aircraft/gps_import.py:715-737 | the cut of a stretch with stops is at one that no other outlasts, the earliest of those as long |
| SplitFacts.SplitIsExact | app/aircraft/gps_import.py:597-680 | two successive fast points share a group if and only if less than 300 s passes between them |
| SplitFacts.SplitInNumbers | app/aircraft/gps_import.py:34-37 | the same in knots and seconds: successive points of 30 kt or more share a group if and only if less than 300 s apart, and a point two groups share is below 5 kt |
| SplitFacts.SplitIsUnique | app/aircraft/gps_import.py:597-680 | a track has one split: the declarative account determines every group |
| Airborne.AirbornePeriods | app/aircraft/gps_import.py:751-777 | the two loops yield the periods that begin at exactly the take-offs and end at exactly the landings (or the end of the recording) among all sustained fast runs |
| AirborneFacts.PeriodsAreFlights | app/aircraft/gps_import.py:745-777 | a period starts and ends at a fast point and lasts 30 s or more; successive ones are ordered, disjoint and 30 s or more apart |
| AirborneFacts.PeriodsInNumbers | app/aircraft/gps_import.py:745-777 | the same in knots and seconds |
| AirborneFacts.RunInExactlyOnePeriod | app/aircraft/gps_import.py:751-777 | every sustained fast run lies inside exactly one period |
| AirborneFacts.SamePeriodIff | app/aircraft/gps_import.py:766-777 | two sustained runs with none in between are in one period if and only if less than 30 s apart |
| AirborneFacts.GroundOnlyIffNeverSustained | app/aircraft/gps_import.py:751-777 | there is no period if and only if the aircraft never was fast for 30 s |
| AirborneFacts.PeriodsUnique | app/aircraft/gps_import.py:751-777 | a group has one list of periods |
| AirborneFacts.LandingCount | app/aircraft/gps_import.py:780-783 | the landings are the periods, less one exactly when the recording ends in the last of them |
| AirborneFacts.CountLandings | app/aircraft/gps_import.py:780-783 | the count computed is the landing count of the group's periods |
| FlownFacts.RunsAreFlownPieces | app/aircraft/gps_import.py:597-777 | the sustained runs of the groups are exactly the gap-free fast pieces of 30 s or more of the whole track, each in one group |
| FlownFacts.EndsInFlight | app/aircraft/gps_import.py:689-738 | a group stops at a fast point with the track going on if and only if the recording stops there or a long slow stretch without a stop follows |
| FlownFacts.UncountedIff | app/aircraft/gps_import.py:689-783 | the landing after a piece flown goes uncounted if and only if the track or the recording stops with it, or a long slow stretch without a stop follows |
| FlownFacts.LandingLost | app/aircraft/gps_import.py:689-783 | a track with two landings whose groups have one in all |
| Segments.DetectSegments | app/aircraft/gps_import.py:786-859 | one segment for each group of the split, built from that group and its airborne periods; what it says is SegmentFacts.DetectedAsRecorded |
| SegmentFacts.DetectedAsRecorded | app/aircraft/gps_import.py:803-857 | of every segment: take-off at the first point of the earliest sustained run, landing at the last point of the latest, neither without one; one landing for each period but one the group ends in; departure looked up at the first point unless flying begins within 10 s of it, else or where nothing is found the hint, in the first segment only; likewise the arrival at the last point |
| Segments.DetectedInSequence | app/aircraft/gps_import.py:786-859 | detected segments are well timed and follow one another in time, each with the points of its group |
| Merge.LoggedRunEnd | app/aircraft/gps_import.py:897-929 | the longest run from a segment that some logbook flight records as one, or the segment alone |
| Merge.MergeLoggedAsOne | app/aircraft/gps_import.py:968-998 | the segments are cut into consecutive longest runs, each delivered as is or joined |
| MergeFacts.RecordsSpelledOut | app/aircraft/gps_import.py:880-929 | a logbook flight records a run as one if and only if no segment is ground-only, the run begins at most 15 minutes before it and ends at most 15 minutes after it, places that are known agree from its departure to its arrival, and no two points recorded in between are 300 s apart |
| MergeFacts.SumsOfOne | app/aircraft/gps_import.py:941-945 | landings and airborne time of a single segment are its own; those of a run add up |
| MergeFacts.RunsPartition | app/aircraft/gps_import.py:897-998 | every input segment is in exactly one run, in order, and a run of several holds no ground-only segment and only linked neighbours |
| MergeFacts.LandingsConserved | app/aircraft/gps_import.py:932-965 | joining neither loses nor invents a landing |
| MergeFacts.MergedClock | app/aircraft/gps_import.py:932-965 | a joined segment's airborne time is at most its take-off-to-landing span, which is at most its block time |
| MergeFacts.DeliveredInSequence | app/aircraft/gps_import.py:932-998 | the delivered segments follow one another in time, each with its track in time order from block-off to block-on |
| MergeFacts.DeliveredContains | app/aircraft/gps_import.py:932-998 | the track of every input segment lies in one piece inside that of the segment it is joined into |
| MergeFacts.GapInSlice | app/aircraft/gps_import.py:885-929 | points recorded within the time span of a joinable run have no recording gap between them, even where groups share a time stamp |
| MergeFacts.NoGapDelivered | app/aircraft/gps_import.py:597-998 | no delivered segment, single or joined, contains a recording gap: a join never bridges a gap at which the split cut |
| MergeFacts.MergeIdempotent | app/aircraft/gps_import.py:880-998 | joining the joined segments again, with the same track and logbook, changes nothing, although `_same_place` is not transitive |
| MergeFacts.PipelineIdempotent | app/aircraft/gps_import.py:786-998 | the same for segments detected on any sorted track, with no assumption left about them |
| Pipeline.MergedSorted | app/aircraft/gps_import.py:584-591 | the merged track is in time order, a permutation of the points of the files, and holds a point exactly if a file that is not empty does |
| Pipeline.PointsOfFiles | app/aircraft/gps_import.py:586-589 | files that are not empty give all their points, one after the other, empty ones none |
| Pipeline.ReviewSegments | app/aircraft/routes.py:2154-2170 | from any files and any logbook: the delivered segments follow one another, none has a gap, joining conserves the landings detected, and joining once more changes nothing |
| BadFixes.DropBadFixes | app/aircraft/gps_import.py:248-284 | keeps the whole ordered track when it has no implausible jump, else exactly its maximal jump-free runs of 60 s or more |
| CleaningFacts.OrderedAsGiven | app/aircraft/gps_import.py:257-260 | the ordered track holds every fix away from (0, 0) exactly once, by time, and fixes of one time in the order given |
| CleaningFacts.KeptPoints | app/aircraft/gps_import.py:261-284 | without a jump all of the ordered track is kept; otherwise a fix is kept if and only if it lies in a piece of a minute or more without a jump, in order |
| CleaningFacts.JumpInNumbers | app/aircraft/gps_import.py:241-272 | a jump is more than half a nautical mile, at more than 600 kt or in no time; a run is kept from 60 s |
| BadFixes.CleanedIsOrdered | app/aircraft/gps_import.py:248-284 | what is kept is in time order, was recorded, and has a position other than (0, 0) |
| BadFixes.CleaningIdempotent | app/aircraft/gps_import.py:248-284 | cleaning a cleaned track drops nothing more |
| BadFixes.RunsUnique | app/aircraft/gps_import.py:259-276 | a track has one list of maximal jump-free runs |
| BadFixes.CleanedUnique | app/aircraft/gps_import.py:248-284 | the declarative account determines what is kept |
| Speeds.SpeedsFromPositions | app/aircraft/gps_import.py:293-316 | each speed is measured from the latest earlier point at least 5 s older, or the previous one if none is; the trailing index makes at most as many moves as there are points |
| Speeds.SpeedCoversDistance | app/aircraft/gps_import.py:313-315 | the speed, kept up for the time between two points, covers the distance between them; it is 0 without time between them |
| Speeds.ReferenceInSeconds | app/aircraft/gps_import.py:302-312 | the reference point in seconds |
| Speeds.ReferenceUnique | app/aircraft/gps_import.py:293-316 | a point has one reference point |
| Downsample.DownsampleTrack | app/aircraft/gps_import.py:1084-1096 | a short track is returned as is; otherwise the points at the kept indices, in order |
| Downsample.KeptIndices | app/aircraft/gps_import.py:1084-1096 | kept indices are distinct, increasing, from 0 to n - 1, and neighbours are at most stride + 1 apart |
| Downsample.KeptCount | app/aircraft/gps_import.py:1084-1096 | max or max + 1 points are kept, and at most max, as documented, if and only if 2n < 3 max, or 2n = 3 max with n odd |
| Downsample.OneTooMany | app/aircraft/gps_import.py:1084-1096 | a track of 1000 points keeps 501, not the documented 500 |
| Ranking.RankOffersQualifying | app/aircraft/gps_import.py:1122-1186 | the ranking is a permutation of exactly the qualifying candidates |
| Ranking.RankIsLexicographic | app/aircraft/gps_import.py:1157-1186 | closest date first, and by descending score among equally close ones |
| Ranking.CloserThenBetter | app/aircraft/gps_import.py:1146-1186 | in dates and scores: who comes first is at most as many days off, and if as many, scores at least as high |
| Ranking.RankKeepsTies | app/aircraft/gps_import.py:1157-1186 | candidates tied on both keep the order they were given in |
| StableSort.SortTwice | app/aircraft/gps_import.py:1146-1186 | sorting by one key and then stably by another orders by both |
| StableSort.SortComesFrom | app/aircraft/gps_import.py:257-260 | a stable sort by places: every element once, ascending by key, equal keys in the order given |
| Chain.HeadReachesAll | scripts/check_migrations.py:123-153 | in a complete acyclic chain with one head every revision is reachable from it |
| Chain.NoCycleIn | scripts/check_migrations.py:132-146 | a revision whose walk is finished lies on no cycle |
| Migrations.Walk.Dfs | scripts/check_migrations.py:132-146 | the recursion terminates and restores the revisions in progress; unless a cycle is found it has visited its revision, after all its parents, and only what that revision reaches; once one is found, the way to it is kept |
| Migrations.BackEdgeIsCycle | scripts/check_migrations.py:132-146 | meeting a revision in progress closes a real cycle; the way to it passes over no parent that reaches a cycle, and the revisions visited or in progress are exactly those on it or reached by a parent passed over |
| Chain.LassoUnique | scripts/check_migrations.py:132-146 | there is one way from the head to the first cycle, so the report is determined |
| Migrations.WalkFromHead | scripts/check_migrations.py:123-153 | with complete references and one head, the walk reports nothing if and only if the chain is acyclic; it reports the first cycle exactly if the head reaches one, and then as orphans just what it had not seen, otherwise just what the head does not reach |
| Migrations.VisitedIsReachable | scripts/check_migrations.py:132-148 | without a cycle error the walk visits exactly what the head reaches |
| Migrations.VisitedAllIffAcyclic | scripts/check_migrations.py:148-153 | revisions stay unreached exactly when there is a cycle the walk never met |
| Migrations.StructuralErrors | scripts/check_migrations.py:88-121 | root, head and reference errors, each reported exactly when it holds and with the revisions it concerns |
| Migrations.CheckChain | scripts/check_migrations.py:88-155 | no error if and only if all references exist, there is one root and one head, and the chain is acyclic; a head is returned if and only if there is one; a cycle is reported if and only if nothing structural is wrong and the head reaches one; the orphans are determined, and an empty list is never reported |
| Migrations.OrphansExactIff | scripts/check_migrations.py:132-153 | beside a cycle error the orphans hold everything the head does not reach, and nothing else if and only if every parent of a revision on the way to the cycle is on it or reached by a parent passed over |
| Migrations.ReportReachedOrphan | scripts/check_migrations.py:148-153 | a chain whose report calls a parent of the head not reachable from it |
| Envelope.PointInPolygon | app/aircraft/routes.py:1459-1487 | the toggling loop computes the parity of edge crossings around the closed polygon, and rejects a polygon with an unreadable vertex |
| Envelope.VerticesAsStored | app/aircraft/routes.py:1470-1475 | a vertex for each stored entry, its first number the arm, its second the weight; none at all exactly if some entry does not start with two finite numbers |
| Envelope.CrossesSymmetric | app/aircraft/routes.py:1478-1484 | an edge is crossed or not whichever way it is walked |
| Envelope.DividedCrossing | app/aircraft/routes.py:1478-1484 | a vertex on an edge splits its crossing between the two halves |
| Envelope.ArmBetween | app/aircraft/routes.py:1478-1484 | the interpolated arm lies between the arms of the edge |
| EnvelopeFacts.RotationInvariant | app/aircraft/routes.py:1459-1487 | starting the vertex list elsewhere never changes the answer |
| EnvelopeFacts.ReversalInvariant | app/aircraft/routes.py:1459-1487 | walking the polygon the other way round never changes the answer |
| EnvelopeFacts.InsertionInvariant | app/aircraft/routes.py:1459-1487 | a vertex added anywhere on any edge never changes the answer |
| EnvelopeFacts.AcceptedInBox | app/aircraft/routes.py:1459-1487 | only points inside the bounding box are accepted, never on its aft or upper side |
| EnvelopeFacts.RectangleAgreesWithLimits | app/aircraft/routes.py:1713-1719 | on a rectangle the envelope and the limits agree except on the aft and upper boundary and below the lower edge, where only the limits accept |
| EnvelopeFacts.LoadedCG | app/aircraft/routes.py:1699-1711 | the CG balances the total moment, is 0 without weight, and lies between the extreme arms whenever no load is negative and there is any weight |
| EnvelopeFacts.LoadAdds | app/aircraft/routes.py:1700-1710 | every station adds its entry to the weight, scaled by the fuel density exactly if it holds fuel, and that weight at its arm to the moment |
| EnvelopeFacts.InEnvelope | app/aircraft/routes.py:1713-1719 | the verdict, on the stored pairs: the envelope with three points or more, else the limits; an accepted point lies between stored arms and between stored weights, and on a stored rectangle the accepted points are exactly those inside it, without its aft and upper boundary |
| Costs.InPeriodIffOverlap | app/expenses/cost_dashboard.py:80-112 | an expense with a span is in a period if and only if at least one covered day is |
| Costs.OverlapCountsDays | app/expenses/cost_dashboard.py:98-112 | the overlap is the number of days both covered and in the period |
| Costs.ShareWithinAmount | app/expenses/cost_dashboard.py:91-112 | a rounded share is between 0 and the amount, for every span and period |
| Costs.SharesConserve | app/expenses/cost_dashboard.py:91-112 | over consecutive periods holding the span the unrounded shares add up to the amount |
| Costs.MoneyConserved | app/expenses/cost_dashboard.py:91-112 | the rounded shares differ from the amount by at most half a cent per period |
| Costs.UncoveredCountedOnce | app/expenses/cost_dashboard.py:80-112 | an expense without a span is counted in exactly one period, to the cent |
| Costs.ReversedSpanCounted | app/expenses/cost_dashboard.py:80-112 | over consecutive periods a span stored end before start is reported in full if one of them holds both its ends, and as nothing otherwise |
| Costs.WindowOneDateTooLong | app/expenses/cost_dashboard.py:17-30 | for every positive number of months the window holds one date more than the documented number of days, and exactly the expenses of those dates are counted |
| Costs.TwelveMonthsCount366Dates | app/expenses/cost_dashboard.py:17-30 | the twelve-month window, documented as 365 days, holds 366 dates |
| Costs.AllTime | app/expenses/cost_dashboard.py:24-26 | without a number of months everything up to today counts, as in any period that begins early enough |
| Costs.DashboardsConserve | app/expenses/cost_dashboard.py:115-202 | successive dashboards report as fixed costs the fixed money not tied to a flight, and as operating costs the other money not tied to one, each to within half a cent for each such expense and period |
| Costs.CategoryOfOne | app/expenses/cost_dashboard.py:129-137 | each category reports an expense exactly if it belongs to it |
| Owners.ParseRows | app/aircraft/co_owner_form_parsing.py:39-104 | no row error if and only if every filled row is sound and all users differ; then the rows are the filled ones, in order |
| Ownership.AcceptedIff | app/aircraft/co_owner_form_parsing.py:39-162 | a form is accepted if and only if each wanted line has a user, a share above 0 and up to 100 with two decimals at most, and no negative or unreadable buy-in, no user is named twice, the shares make 100 if there is a wanted line, and the date, rate and reserves are readable with one reserve at most |
| Owners.ParseOwnersForm | app/aircraft/co_owner_form_parsing.py:39-125 | accepted if and only if moreover the shares make exactly 100, and start date and rate are readable |
| Owners.ParseReserveFields | app/aircraft/co_owner_form_parsing.py:128-162 | accepted if and only if both reserves are blank or non-negative and not both are given |
| Ownership.Aircraft.ManageOwners | app/aircraft/routes.py:657-730 | an accepted form replaces the owner set and stores each rate and reserve as its own field says; a rejected one changes nothing |
| Ownership.SavedAsSubmitted | app/aircraft/routes.py:687-716 | every wanted line of an accepted form becomes an owner with the share and buy-in of that line, nobody else is one, and each of the three rates is that of its own field |
| Ownership.OwnersOfRow | app/aircraft/routes.py:685-712 | every submitted row is stored as submitted |
| Ownership.TotalOfRows | app/models.py:3733-3760 | the stored shares, added up in any order, make the total of the rows |
| Ownership.SaveKeepsSound | app/aircraft/routes.py:672-717 | a save keeps: shares of exactly 100 or no owner, sound rows, never both reserves, a billing start whenever there are owners |
| Ownership.EveryRunSound | app/models.py:3733-3760 | so does every sequence of saves on a new aircraft |
| Ownership.OwnersAreLastAccepted | app/aircraft/routes.py:672-717 | after any sequence the owners are those of the last accepted form |
| Ownership.RatesAreLastAccepted | app/aircraft/routes.py:710-712 | after any sequence the hourly rate and both reserves are those of the last accepted form |
| Ownership.BillingStartStep | app/aircraft/routes.py:713-716 | a date given is stored; a blank one changes nothing that is set, and sets today where owners are stored for the first time and nothing is set |
| Ownership.BillingStartOverRuns | app/aircraft/routes.py:713-716 | after any sequence on a new aircraft it is the last date an accepted form gave, else the day of the first accepted form that names an owner, else not set |
| Billing.FixedShares | app/services/co_owner_billing.py:204-238 | every owner but the last is charged the exact share rounded half up, and all charges together make the expense |
| Billing.LastHasLargest | app/services/co_owner_billing.py:204-209 | the last owner has the largest share, and of equal ones the smallest user id |
| Billing.DivisionBounds | app/services/co_owner_billing.py:204-238 | charges add up to the expense; each is within half a cent of the exact share, the last within half a cent for each other owner |
| Billing.LastPaysRest | app/services/co_owner_billing.py:204-238 | the last charge is the exact share less the rounding errors of all others |
| Billing.LastNotNegativeIff | app/services/co_owner_billing.py:223-224 | the last charge is not negative if and only if the exact share covers those errors |
| Billing.NobodyCredited | app/services/co_owner_billing.py:204-238 | no charge is negative for an expense of at least a cent for each pair of owners |
| Billing.LastCredited | app/services/co_owner_billing.py:204-238 | a hundred equal owners of an expense of 50 cents: the last is credited 49 |
| Review.Session.DoConfirmOne | app/aircraft/routes.py:2730-2852 | an undecided segment of a live session gets exactly the decision asked for, an import is counted and a skip is not, no other decision changes, and the session ends when the counts agree; in any other case nothing changes |
| ReviewFacts.OneStepDecides | app/aircraft/routes.py:2741-2852 | confirming one changes the state if and only if the segment is undecided in a live session; then it adds that decision and no other, logs and counts an import once, and applies the choice among several matches |
| ReviewFacts.OneStepEnds | app/aircraft/routes.py:2765-2821 | such a decision ends the session if and only if it is the last one |
| Review.Session.DoConfirmAll | app/aircraft/routes.py:2860-2918 | decides, flights first, every undecided segment that has a match or is an unattached ground run |
| ReviewFacts.EndTestCounts | app/aircraft/routes.py:2764-2821 | the two counts agree if and only if there are as many undecided segments as decisions about no segment |
| ReviewFacts.EndTestIsExact | app/aircraft/routes.py:2764-2821 | without decisions about no segment, the counts agree exactly when every segment is decided |
| ReviewFacts.StraySaveEndsEarly | app/flights/routes.py:1924-1937 | a form save with an index out of range, then a skip, ends the session with a segment undecided |
| ReviewFacts.StepAccounted | app/aircraft/routes.py:2629-2918 | each operation keeps every import logged and counted once and every decision made; only a form save for a segment not imported gets around the counter |
| ReviewFacts.StepConsistent | app/aircraft/routes.py:2629-2918 | any operation ends a session only when undecided segments and decisions about no segment are equally many; without the latter, a session with all decided goes on exactly if a form save made the last decision and no confirm-all followed |
| ReviewFacts.EveryRunConsistent | app/aircraft/routes.py:2629-2918 | over every run of confirm, skip, confirm-all and form saves each segment is imported at most once, and the imported counter is the number of non-skip decisions if and only if no form save decided a segment that had not been imported |
| ReviewFacts.SessionEnds | app/aircraft/routes.py:2730-2918 | over every run, an ended session has everything decided if and only if no form save took effect on an index that names no segment; one with everything decided goes on if and only if there was such a save, or a form save made the last decision and there was no confirm-all since |
| ReviewFacts.StuckForever | app/aircraft/routes.py:2904-2918 | with everything decided and one decision about no segment, no further run of operations ends the session |
| ReviewFacts.StraySaveNeverEnds | app/flights/routes.py:1924-1937 | two form saves, one with an index out of range, after which nothing ends the session |
| ReviewFacts.OneFlightPerSegment | app/flights/routes.py:1924-1937 | over every run a segment gets at most one flight if and only if no form save takes effect on it while it has a non-skip decision; it gets one at all if and only if its decision is not a skip |
| Review.Session.DoFormSave | app/flights/routes.py:1924-1937 | in a live session the segment is decided as the saved flight, again if it was decided; no other decision, the counter, the log and the session do not change, and an ended session changes nothing |
| ReviewFacts.FormStepDecides | app/flights/routes.py:1924-1937 | a form save adds exactly its index to the decisions, as a non-skip one, keeps all others, and makes a decision about no segment exactly if the index is out of range |
| ReviewFacts.FormSavesOnly | app/flights/routes.py:1924-1937 | form saves overwrite a skip, count nothing, and leave a session without anything to decide open |
| ReviewFacts.DecisionsAreFinal | app/aircraft/routes.py:2753-2918 | after any further operations a decision is what it was, or, if form saves for its segment took effect, the flight of the last of them |
| ReviewFacts.AllStepDecides | app/aircraft/routes.py:2873-2918 | after confirm-all only unmatched segments are undecided; the others are imported or skipped as their kind demands |
| ReviewFacts.AllStepIdempotent | app/aircraft/routes.py:2860-2918 | confirming all twice is confirming all once |
| ReviewFacts.FlightsBeforeGroundRuns | app/aircraft/routes.py:2873-2885 | confirm-all imports every flight before any ground run |
| Watcher.Scanner.ProcessFile | app/sync_watcher.py:146-256 | a recognised file becomes one document, any other one pending entry, with the fields derived from its path |
| WatcherFacts.RowsAsNamed | app/sync_watcher.py:159-234 | the second folder level names the aircraft, the third the category; a path that names both becomes their document, any other an open entry with what it does name |
| WatcherFacts.EligibleFiles | app/sync_watcher.py:102-119 | a scan is responsible for the files in a hangar folder that are not hidden and not in photos or gps_logs folders |
| Watcher.Scanner.ScanOnce | app/sync_watcher.py:51-143 | the nested loops add one row for each untracked eligible file and drop exactly the open entries of scanned tenants whose file is gone |
| WatcherFacts.ScanTracksOnce | app/sync_watcher.py:79-143 | whatever the tables held, a scan gives an eligible file that no row tracks exactly one row, leaves the number of rows of the other eligible files, and never adds a row to a path that has one |
| WatcherFacts.PendingNeverRepeated | app/sync_watcher.py:79-143 | a scan never inserts a pending path that the table holds |
| Reconcile.EveryRunSound | app/documents/routes.py:1300-1363 | over every run of scans, imports and ignores no path has two entries and an entry is reconciled exactly if its path has a document; after a scan every eligible file is known, from a document or from an entry not yet imported, never both |
| Reconcile.StepSound | app/documents/routes.py:1300-1363 | each scan, import and ignore keeps that |
| Reconcile.ImportedAsChosen | app/documents/routes.py:1306-1344 | the imported document has the file of the entry, the aircraft chosen, and the category chosen or else that of the entry, unless it is no known one |
| Reconcile.EntryMarked | app/documents/routes.py:1346-1363 | an import marks exactly its entry as reconciled and adds one document, an ignore marks exactly its entry as ignored |
| Reconcile.OneDocumentPerPath | app/documents/routes.py:1334-1347 | over a run no path ever has two documents if and only if no entry is imported a second time |
| Reconcile.ImportedTwice | app/documents/routes.py:1334-1347 | a queued file imported twice has two documents |
| Reconcile.SettledStays | app/sync_watcher.py:79-143 | a path once imported or ignored is never queued again nor dropped from the queue, whatever happens to its file |
| WatcherFacts.SecondScanIdle | app/sync_watcher.py:79-143 | a second scan with nothing changed inserts and deletes nothing |
| Projection.MapScales | app/utils.py:78-98 | both scales are positive, fit the usable canvas and keep the ratio of 180 to pi |
| Projection.Orientation | app/utils.py:99-103 | east is right and north is up |
| Projection.OneAxisFilled | app/utils.py:85-95 | the map is as large as fits: one of the axes is filled |
| Projection.MapCentred | app/utils.py:96-97 | as much is free to the left as to the right, and above as below |
| Projection.MarginKept | app/utils.py:71-76 | the tracks leave a twelfth of the map free on every side |
| Projection.BoxOfExtent | app/utils.py:66-76 | the map covers the extent of the tracks, widened on each side by a tenth of it, or by 0.01 degree if it is under 0.1 |
| Projection.FitsCanvas | app/utils.py:57-104 | every point of two or more lands inside the padded canvas, for any monotone Mercator function |

## Left out

* Reading GPX, KML and CSV files, and `classify_track`: parsed points and whether a file is empty are inputs.
* The haversine distance and the airport table: distance and the nearest-airport lookup are any functions.
* Floating-point rounding: arithmetic is exact; `round` is modelled on exact fractions, ties to even.
* `round_flight_time`, `segment_times` and the GeoJSON of a segment: display values computed from what is modelled.
* `logged_flight_windows` and the scorers: logbook windows and scores are inputs.
* `downsample_track` with `max_points` 0, which no caller passes and which divides by zero: `max` is positive.
* `bisect` and `sorted`: modelled as functions with their documented results, `sorted` with its stability.
* The GPS review does not re-read the files between requests: the segment list is fixed when the session starts, except for the flight a user picks.
* The flight that the form saves, and that the aircraft of the form and of the session agree: a form save is the segment index it carries and a flight id.
* What an import writes to flights, track links and ground runs: an import is any function from a segment to a flight id.
* Rolling back a GPS batch: it runs code outside the model and does not restore the times it filled in.
* Deleting a user, which deletes owner rows without going through the form and can leave shares short of 100.
* Decimal context precision, and the rounding of buy-ins to the two decimals of their column: shares and amounts are exact decimals.
* The title, date, MIME type and size that the sync scanner guesses for a file, and the worker lock: the lock and a missing upload folder are one flag.
* Deleting and uploading documents, renaming a category folder or a hangar, and the reconcile page's own scan of one tenant: the tables change by scans of the watcher, imports and ignores only.
* The title, validity date and access checks of a reconcile import: an import is the entry, the aircraft and the category chosen.
* Reading migration files: the chain of revisions is the input.
* Posting and reversing ledger entries for buy-ins, shares and flights: the ledger's code is not part of this model, and a division is the list of charges it would post.
* Hours, oil and the per-hour figures of the cost dashboard: single divisions.
* The Mercator formula and pi: any monotone function and any positive number.
* Drawing images, routing, templates, sessions as cookies and database transactions.
