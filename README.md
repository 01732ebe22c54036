# Open-HAMS animal availability and scheduling, modelled in Dafny

Open-HAMS is a zoo management backend. Handlers check animals out to
events and back in again. Each check-out and check-in updates the
animal's stored status and appends rows to an audit trail. Before an
animal may go out, the system derives whether it is available now:

- it must not have reached today's number of check-outs;
- it must not have reached today's total time out;
- its rest time since the last check-in must have run out;
- an admin may have marked it unavailable by hand.

Events are scheduled per zoo. An animal may not be linked to two events
of one zoo whose time windows overlap. Permissions come from a seeded
table that maps roles to permissions.

This project models, as values and as imperative handlers over a
table store:

- the availability classifier and the duration humaniser behind its
  "Resting for …" text;
- the scheduling guards: animals, users, clashes, tiers and availability;
- the check-out / check-in state machine on animal–event links, with its
  audit rows;
- event creation, editing and animal reassignment;
- the permission predicates and the seeded role table;
- the animal and user routes: the feed, the details pages, the resting
  and checked-out lists, the delete cascade, updates, login, registration,
  tiers and self-deletion;
- the web client's event form: its validation and how it combines dates
  with times.

Layout (one module per file):

| file | module | models |
|---|---|---|
| base.dfy | Base | Option/Result/Outcome, failures, `Filter` and its lemmas, decimal text, ASCII lower-casing |
| models.dfy | Models | the records of backend/models.py and their defaults |
| session.dfy | Session | `Store`, the database as one sequence per table, and its `Tables` snapshot |
| utils.dfy | Utils | `time_since` |
| db_animals.dfy | DbAnimals | backend/db/animals.py |
| db_events.dfy | DbEvents | backend/db/events.py |
| db_permissions.dfy | DbPermissions | backend/db/permissions.py |
| db_roles.dfy | DbRoles | backend/db/roles.py |
| db_users.dfy | DbUsers | backend/db/users.py |
| routes_events.dfy | RoutesEvents | backend/api/routes/events.py |
| routes_animals.dfy | RoutesAnimals | backend/api/routes/animals.py |
| routes_users.dfy | RoutesUsers | backend/api/routes/users.py |
| event_schema.dfy | EventSchema | frontend/src/api/schemas/event.ts |

Conventions:

- Times are integer seconds (UTC), and durations are integer seconds.
- Each handler takes the clock as a parameter `now`, read once per request.
- "Today" (`date.today()` compared with a check-in date) is a predicate
  parameter `isToday`.
- A handler is one method on `Store`. It first computes every check as a
  pure function of the snapshot, in the order the code makes them. It
  writes nothing when a check fails. Otherwise it performs the writes,
  each loop in a method of its own.
- A failure is `Http(code, detail)` with the code's exact status code and
  message. The `Exception("Invalid animal status")` raised by the
  classifier is `Internal`.

## Model

| member | source | states |
|---|---|---|
| Models.NewAnimalIn | backend/models.py:154-169 | a new animal's status is "checked_in", its last check-in time is null, and its tier is 1; the counters are zero, `checked_in` is true, and image and description are null |
| Models.NewLink | backend/models.py:131-145 | a new link has null `checked_in`, `checked_out`, `duration`, `user_in_id` and `user_out_id`, so it is in the assigned stage |
| Models.NewEventCreate | backend/models.py:352-356 | `checkout_immediately` defaults to false |
| Models.NewUser | backend/models.py:90-106 | a new user has tier 1 and no group |
| Models.InsertGroup | backend/models.py:76-83 | the (title, zoo_id) index refuses exactly a duplicate pair; an accepted insert appends the row and keeps the pairs unique |
| Models.InsertEventType | backend/models.py:212-228 | the (name, zoo_id, group_id) index refuses exactly a duplicate triple; an accepted insert appends the row and keeps the triples unique |
| Utils.FromSeconds | backend/core/utils.py:27-35 | a timedelta normalised as Python does: days floored, 0 <= seconds < 86400, days*86400 + seconds is the total |
| Utils.TimeSinceText | backend/core/utils.py:27-35 | "{days} days" when days > 0, whatever the seconds; else "{s//3600}hrs" when s > 3600; else "{s//60}mins" when s > 60; else "{s} seconds" |
| Utils.StrictThresholds | backend/core/utils.py:30-35 | the comparisons are strict: exactly 3600 s reads 60 minutes, exactly 60 s reads 60 seconds, 3601 s reads 1 hour and 86400 s reads 1 day |
| Utils.HumanizeRoundsDown | backend/core/utils.py:27-35 | a positive remaining time is reported as the whole number of units it holds, rounded down, in days from one day up, in hours above one hour, in minutes above one minute, and in seconds otherwise |
| Utils.HumanizeMonotone | backend/core/utils.py:27-35 | less remaining time never reads as a larger span |
| Utils.SpanTextInjective | backend/core/utils.py:29-35 | different spans give different texts |
| Utils.Suffix | backend/core/utils.py:29-35 | every unit suffix is non-empty and does not start with a digit, so the number in front of it can be read back |
| Base.NatToString | backend/core/utils.py:29-35 | the decimal text of a count (`f"{n}"`) is non-empty and made of digits only |
| Base.ParseNatToString | backend/core/utils.py:29-35 | the decimal text of a count reads back as that count |
| Base.NatToStringInjective | backend/core/utils.py:29-35 | different counts give different decimal texts |
| DbAnimals.AvailableIff | backend/db/animals.py:73-95 | "available / Animal is available for check-out" exactly when the stored status is checked_in, today's count is below the maximum, the summed duration is null, zero or below the hour quota, and the rest time has run out |
| DbAnimals.StoredStatusDecides | backend/db/animals.py:96-103 | stored "checked_out" gives checked_out, stored "unavailable" gives "unavailable / By Admin", and any status other than those three raises the error |
| DbAnimals.CountQuotaFirst | backend/db/animals.py:74-77 | once the daily count is reached the result is "Daily Check-out limit reached", whatever the duration or the clock |
| DbAnimals.DurationQuotaSecond | backend/db/animals.py:78-82 | under the count, a non-null, non-zero sum at or above the hour quota gives "Allowed Check-out duration reached", whatever the clock |
| DbAnimals.NullOrZeroDurationIgnored | backend/db/animals.py:78-82 | a null sum and a zero sum classify alike and never give the duration message |
| DbAnimals.RestRule | backend/db/animals.py:84-95 | with both quotas passed, the result is "Resting for {time_since(last+rest-now)}" exactly when a last check-in is set and last+rest > now, and available otherwise |
| DbAnimals.AvailabilityPersists | backend/db/animals.py:84-95 | with today's usage fixed, an available animal stays available as the clock advances |
| DbAnimals.RestingCountsDown | backend/db/animals.py:84-91 | the reported rest shrinks as the clock advances, and the rest is over at last+rest |
| DbAnimals.NoRestingWithoutG | backend/api/routes/animals.py:231-236 | a text without a "g" never contains "resting" in any case |
| DbAnimals.FixedNotesDoNotMentionResting | backend/db/animals.py:75-101 | none of the five fixed descriptions contains "resting" |
| DbAnimals.RestingNoteMentionsResting | backend/db/animals.py:91 | every "Resting for …" text contains "resting" once lower-cased |
| DbAnimals.MentionsRestingIff | backend/db/animals.py:73-103 | a derived description mentions "resting" exactly when the animal is checked in, under both quotas and still resting |
| DbAnimals.SumDurations | backend/db/animals.py:49 | SQL SUM over the durations is null exactly when every duration is null (no rows included) |
| DbAnimals.StatusesOf | backend/db/animals.py:69-118 | one report per row in row order; a single invalid stored status fails the whole answer |
| DbAnimals.GetAnimalsStatus | backend/db/animals.py:41-118 | the loop yields the report of every animal selected by the id list (when given) and the zoo (when truthy) |
| DbAnimals.ValidateAnimalsIff | backend/db/animals.py:252-263 | with unique animal ids, the guard succeeds exactly when the requested ids are pairwise different and each names an animal of the zoo, or of any zoo when no zoo or zoo 0 is given |
| DbAnimals.OverlapsSymmetric | backend/db/animals.py:279-280 | the inclusive overlap test is symmetric |
| DbAnimals.TouchingWindowsClash | backend/db/animals.py:279-280 | a window ending exactly when another begins clashes with it, and one ending strictly before does not |
| DbAnimals.ClashingNames | backend/db/animals.py:272-288 | the names of the requested animals linked to a same-zoo event that overlaps the window (the edited event excluded when an event id is given), each once |
| DbAnimals.ClashFreeIff | backend/db/animals.py:266-296 | the clash guard passes exactly when no requested animal has a clashing link; when it fails the 400 lists the names |
| DbAnimals.ValidateTiers | backend/db/animals.py:299-306 | passes exactly when every animal's tier is at most the user's; otherwise 401 |
| DbAnimals.FirstUnavailable | backend/db/animals.py:312-317 | the first report whose status is not "available"; none exactly when all are available |
| DbAnimals.ValidateAvailabilityIff | backend/db/animals.py:309-319 | the availability guard passes exactly when the statuses of the listed animals can be computed and every one is "available" |
| DbAnimals.AvailabilityPassed | backend/db/animals.py:309-319 | after a pass, every stored animal whose id is listed is available now; ids without a row are not checked |
| DbAnimals.AvailabilityRefused | backend/db/animals.py:309-319 | a refusal names a listed stored animal that is not available now |
| DbAnimals.UnavailableRow | backend/db/animals.py:312-317 | a refused list holds a row that is not available now |
| DbAnimals.GetActionOfField | backend/db/animals.py:228-244 | the six named fields get their own audit action; every other field gets "animal_updated" |
| DbAnimals.FieldAudits | backend/db/animals.py:210-223 | one audit row per listed field, in list order, carrying the field name, the old and new texts and the field's action |
| DbAnimals.AllFieldsComplete | backend/models.py:154-190 | the field list covers every field of `AnimalIn` |
| DbAnimals.SameFieldsSame | backend/db/animals.py:210-211 | two records that agree on every field are equal |
| DbAnimals.AuditedIffChanged | backend/db/animals.py:210-211 | a field is audited exactly when its value changes |
| DbAnimals.NoChangeNoAudit | backend/db/animals.py:204-225 | an update logs no row exactly when it changes nothing |
| DbAnimals.LogFieldsUpdate | backend/db/animals.py:204-225 | appends exactly the audit rows of the changed fields, in field order |
| DbAnimals.LogChangedFields | backend/db/animals.py:210-223 | the loop appends the rows of the changed fields among those listed |
| DbAnimals.LogIfChanged | backend/db/animals.py:211-223 | one step appends the field's row exactly when its value differs |
| DbAnimals.ChangedSnoc | backend/db/animals.py:210-211 | one more field is added to the changed list exactly when its value differs |
| DbAnimals.SetStatus | backend/db/animals.py:121-140 | the animal table keeps its length |
| DbAnimals.SetStatusEffect | backend/db/animals.py:133-137 | each listed animal gets the status, and its last check-in becomes now exactly when the status is "checked_in"; unlisted animals and all other fields stay |
| DbAnimals.UpdateAnimalsStatus | backend/db/animals.py:121-140 | the loop leaves the animal table equal to `SetStatus` of the old table |
| DbAnimals.LogAudit | backend/db/animals.py:178-201 | appends exactly one audit row |
| DbAnimals.FindAnimal | backend/db/animals.py:36-38 | the first row with the id; none exactly when no row has it |
| DbAnimals.ToggleAnimalAvailability | backend/db/animals.py:340-360 | 404 for a missing animal; "available" stores "checked_in" and "unavailable" stores "unavailable"; one animal_status_changed row whose old value is the opposite label and whose new value is the label asked for |
| DbAnimals.ToggleDerivedStatus | backend/db/animals.py:347 | after the override to unavailable the derived status is "unavailable / By Admin"; after the override to available it is computed by the checked-in rules and never fails |
| DbEvents.GetAllEvents | backend/db/events.py:16-22 | with no zoo id or zoo 0 every event is returned; otherwise exactly the zoo's events, in stored order |
| DbEvents.GetEventsDetails | backend/db/events.py:30-86 | one entry per input event, in input order; the empty input gives the empty output |
| DbEvents.DetailsList | backend/db/events.py:60-86 | the entries of a list of events, one per event in order |
| DbEvents.DetailsExact | backend/db/events.py:64-80 | an entry's links, handler links and comments are exactly the stored rows with that event id |
| DbEvents.DetailsDisjoint | backend/db/events.py:64-80 | entries of different events share no link, handler link or comment |
| DbPermissions.PermissionNamesDistinct | backend/db/permissions.py:10-39 | the catalogue has 26 pairwise different names |
| DbPermissions.HasPermission | backend/db/permissions.py:70-71 | true exactly when some permission in the list has that exact name; false for the empty list |
| DbPermissions.GetPermissions | backend/db/permissions.py:60-67 | a missing or empty name list returns every permission; otherwise exactly the permissions named, in stored order |
| DbPermissions.CatalogueRows | backend/db/permissions.py:44-46 | one row per catalogue name, in order |
| DbPermissions.CreatePermissions | backend/db/permissions.py:42-50 | the 26 rows are committed together, or not at all when any name is already stored |
| DbPermissions.SeedingIsIdempotent | backend/db/permissions.py:42-50 | seeding keeps names unique; seeding twice equals seeding once; a table without a clash ends up holding the whole catalogue |
| DbRoles.GetRole | backend/db/roles.py:10-12 | the role with that name; none exactly when there is no such role |
| DbRoles.CreateRole | backend/db/roles.py:15-26 | fails ("Some permissions do not exist") when the number found differs from the number requested; otherwise the role is added with the permissions found, unless the name is taken |
| DbRoles.CreateRoleCountCheck | backend/db/roles.py:15-18 | with unique stored names, a non-empty request passes the count check exactly when its names are pairwise different and all stored; an empty request selects every permission and passes only on an empty table |
| DbRoles.CreateBasicRoles | backend/db/roles.py:29-60 | leaves the roles table equal to `BasicRoles` of the old one |
| DbRoles.BasicRolesOnce | backend/db/roles.py:31-33 | nothing happens once an "admin" role exists |
| DbRoles.CatalogueFacts | backend/db/permissions.py:39-46 | the seeded catalogue has unique names and holds exactly the catalogue's names |
| DbRoles.RolePermissionsExact | backend/db/roles.py:15-20 | a role created from pairwise different stored names holds exactly those names |
| DbRoles.BasicListsValid | backend/db/roles.py:36-60 | the moderator, handler and visitor lists name catalogue permissions, each once |
| DbRoles.RoleCreatedOnCatalogue | backend/db/roles.py:15-26 | on a full catalogue, creating a new role from valid names succeeds |
| DbRoles.AdminStep | backend/db/roles.py:35 | first step of the seeding: the admin role |
| DbRoles.ModeratorStep | backend/db/roles.py:36-48 | second step: the moderator role |
| DbRoles.HandlerStep | backend/db/roles.py:49-59 | third step: the handler role |
| DbRoles.VisitorStep | backend/db/roles.py:60 | fourth step: the visitor role |
| DbRoles.BasicRolesOnSeededTable | backend/db/roles.py:29-60 | on an empty roles table over the seeded catalogue, seeding creates exactly admin, moderator, handler and visitor, in order |
| DbRoles.SeededRoleContents | backend/db/roles.py:35-60 | the admin role holds every permission; the moderator, handler and visitor roles hold exactly their listed ones |
| DbRoles.AdminContents | backend/db/roles.py:35 | the admin role holds exactly the catalogue |
| DbRoles.FixedRoleContents | backend/db/roles.py:36-60 | the handler holds exactly view_animals, checkout_animals, checkin_animals, view_events and add_animal_health_log; the visitor exactly view_animals and view_events; the moderator its seven |
| DbRoles.SeededCatalogueStored | backend/db/permissions.py:42-50 | seeding an empty permission table stores the whole catalogue with unique names |
| DbUsers.FirstUser | backend/db/users.py:7-19 | the first stored user meeting the condition; none exactly when no user does |
| DbUsers.ValidateUsersIff | backend/db/users.py:22-29 | with unique user ids, the guard succeeds exactly when the requested ids are pairwise different and each names a stored user |
| DbUsers.FindAssignment | backend/db/users.py:40-45 | an assignment row is found exactly when the user is assigned to the event |
| DbUsers.ValidateCheckInOutIff | backend/db/users.py:32-51 | passes exactly for an admin or an assigned handler, and success is `True`; any other role gives 401; an unassigned handler gives 400 |
| RoutesEvents.FindEvent | backend/api/routes/events.py:234-236 | the position of the event with that key; none exactly when no event has it |
| RoutesEvents.LinkedAnimals | backend/api/routes/events.py:659 | the animal rows joined to the links, in link order |
| RoutesEvents.Requested | backend/api/routes/events.py:650-658 | the rows selected by `event_id == e AND animal_id IN ids`: exactly the links of the event for a listed animal |
| RoutesEvents.RequestedAll | backend/api/routes/events.py:666-678 | a check over the selected rows holds exactly when it holds for every link of the event for a listed animal |
| RoutesEvents.RequestedCountIff | backend/api/routes/events.py:661-664 | with one link per (animal, event) pair, the count check passes exactly when the listed ids are pairwise different and each is linked to the event |
| RoutesEvents.StagesPartition | backend/models.py:139-145 | a lawful link is in exactly one of assigned, checked out and checked in |
| RoutesEvents.CheckedInLink | backend/api/routes/events.py:684-689 | check-in stamps checked_in and user_in_id, and the duration becomes now minus checked_out |
| RoutesEvents.CheckedOutLink | backend/api/routes/events.py:792-795 | check-out stamps checked_out and user_out_id and keeps the link's pair |
| RoutesEvents.TransitionsKeepLifecycle | backend/api/routes/events.py:684-689 | check-out takes an assigned link out and check-in brings a link in the field back, both keeping the life-cycle rules |
| RoutesEvents.Stamp | backend/db/animals.py:189-197 | a template's rows written for one animal |
| RoutesEvents.Batch | backend/api/routes/events.py:702-734 | the template's rows written for each listed animal in turn |
| RoutesEvents.StampKeepsRows | backend/db/animals.py:189-197 | stamping changes only the animal a row is about |
| RoutesEvents.StampFilter | backend/api/routes/events.py:702-734 | of one animal's stamped rows, a filter on one animal keeps all or none |
| RoutesEvents.BatchPerAnimal | backend/api/routes/events.py:702-734 | with pairwise different ids, the batch holds the template exactly once for each listed animal and nothing for any other |
| RoutesEvents.LogBatch | backend/api/routes/events.py:702-734 | the loop appends the batch |
| RoutesEvents.CheckinTemplate | backend/api/routes/events.py:702-734 | check-in writes three rows per animal: checked_in, then animal_status_changed from checked_out to checked_in, then rest_time_started, all by the caller |
| RoutesEvents.CheckoutTemplate | backend/api/routes/events.py:807-830 | check-out writes two rows per animal: checked_out, then animal_status_changed from checked_in to checked_out, both by the caller |
| RoutesEvents.CheckinLinkError | backend/api/routes/events.py:666-678 | no error exactly when every selected link is checked out and not yet checked in; otherwise the first offending link's 400 |
| RoutesEvents.CheckinCheck | backend/api/routes/events.py:638-681 | a pass guarantees every selected link is in the field |
| RoutesEvents.CheckinCheckIff | backend/api/routes/events.py:638-681 | check-in is refused exactly when the caller may not handle the event, the event is missing, a listed animal is not linked (or listed twice), a link is not in the field, or an animal is above the caller's tier |
| RoutesEvents.CheckinLinks | backend/api/routes/events.py:684-689 | the links after check-in keep their number |
| RoutesEvents.CheckinLinksEffect | backend/api/routes/events.py:684-689 | every selected link is checked in by the caller with its duration; every other link is unchanged; lawful links stay lawful |
| RoutesEvents.CheckInLinks | backend/api/routes/events.py:684-689 | the loop leaves the links equal to `CheckinLinks` of the old links |
| RoutesEvents.CheckinAnimals | backend/api/routes/events.py:632-739 | the outcome is the check; a refusal writes nothing; a pass writes the checked-in links, status "checked_in" with the last check-in time, and three audit rows per animal |
| RoutesEvents.ApplyCheckin | backend/api/routes/events.py:683-736 | the writes of check-in once every check passed |
| RoutesEvents.CheckoutLinkError | backend/api/routes/events.py:779-786 | no error exactly when no selected link is checked out yet; otherwise the first offending link's 400 |
| RoutesEvents.CheckoutCheck | backend/api/routes/events.py:748-789 | a pass guarantees no selected link is checked out yet; there is no clash check |
| RoutesEvents.CheckoutCheckIff | backend/api/routes/events.py:748-789 | check-out is refused exactly when the caller may not handle the event, the event is missing, a listed animal is not available, a listed animal is not linked (or listed twice), a link is already out, or an animal is above the caller's tier |
| RoutesEvents.CheckoutLinks | backend/api/routes/events.py:792-795 | the links after check-out keep their number |
| RoutesEvents.CheckoutLinksEffect | backend/api/routes/events.py:792-795 | every selected link is checked out by the caller now; every other link is unchanged; lawful links stay lawful |
| RoutesEvents.CheckOutLinks | backend/api/routes/events.py:792-795 | the loop leaves the links equal to `CheckoutLinks` of the old links |
| RoutesEvents.CheckoutAnimals | backend/api/routes/events.py:742-835 | the outcome is the check; a refusal writes nothing; a pass writes the checked-out links, status "checked_out" and two audit rows per animal |
| RoutesEvents.ApplyCheckout | backend/api/routes/events.py:791-832 | the writes of check-out once every check passed |
| RoutesEvents.CheckinAuditsPerAnimal | backend/api/routes/events.py:702-734 | with pairwise different ids, each listed animal gets exactly the three check-in rows, by the caller |
| RoutesEvents.CheckoutAuditsPerAnimal | backend/api/routes/events.py:807-830 | with pairwise different ids, each listed animal gets exactly the two check-out rows, by the caller |
| RoutesEvents.LinksUniqueAppend | backend/api/routes/events.py:176-183 | appending links of one event for pairwise different animals not yet linked to it keeps one link per pair |
| RoutesEvents.CheckInOutKeepLinksLawful | backend/api/routes/events.py:684-689 | a successful check-in or check-out keeps every link lawful and one link per pair |
| RoutesEvents.NextEventId | backend/api/routes/events.py:161-167 | a new event's id is above every stored id |
| RoutesEvents.NewUserLinks | backend/api/routes/events.py:169-173 | one handler link per listed user, assigned by the caller |
| RoutesEvents.AssignedLinks | backend/api/routes/events.py:331-333 | one fresh assigned link per listed animal |
| RoutesEvents.CreatedLinks | backend/api/routes/events.py:176-183 | one link per listed animal, checked out now by the caller when `checkout_immediately` is set and only assigned otherwise |
| RoutesEvents.CreateCheck | backend/api/routes/events.py:119-159 | a pass guarantees the animals are valid for the zoo and free of clashes and, for an immediate check-out, available |
| RoutesEvents.CreateEvent | backend/api/routes/events.py:115-222 | the outcome is the check; a refusal writes nothing; a pass appends the event, its handler links and its animal links, sets "checked_out" on an immediate check-out, and writes one "added" row per animal and then one "checked out" row per animal |
| RoutesEvents.ApplyCreate | backend/api/routes/events.py:161-219 | the writes of create once every check passed |
| RoutesEvents.AddUserLinks | backend/api/routes/events.py:169-173 | the loop appends the handler links |
| RoutesEvents.AddLinks | backend/api/routes/events.py:176-183 | the loop appends the animal links |
| RoutesEvents.CreateKeepsLinksLawful | backend/api/routes/events.py:143-189 | a created event's links are lawful and keep one link per (animal, event) pair |
| RoutesEvents.NoLinkToNewEvent | backend/api/routes/events.py:161-167 | no stored link names the id a new event gets |
| RoutesEvents.CreatedLinksLifecycle | backend/api/routes/events.py:176-183 | created links are lawful, assigned and checked out alike |
| RoutesEvents.RemovalError | backend/api/routes/events.py:298-307 | no error exactly when none of the links to delete is checked out; otherwise 400 "{name} is already checked out, can't be removed" |
| RoutesEvents.UpdateCheck | backend/api/routes/events.py:228-273 | a pass guarantees the event exists, the animals are valid for the zoo, and no link to be deleted is checked out |
| RoutesEvents.UpdateTimeRules | backend/api/routes/events.py:238-247 | a started event refuses a moved start, and an ended event refuses every edit; the start-time check comes first |
| RoutesEvents.UpdateEvent | backend/api/routes/events.py:225-359 | the outcome is the check; a refusal writes nothing; a pass overwrites the event, replaces its handlers and animals by the lists, and writes one "removed" row per deleted link and one "added" row per new animal |
| RoutesEvents.ApplyUpdate | backend/api/routes/events.py:275-356 | the writes of update once every check passed |
| RoutesEvents.RelinkLogged | backend/api/routes/events.py:292-355 | the animal links are replaced, and the removal rows come before the addition rows |
| RoutesEvents.LogRelink | backend/api/routes/events.py:335-353 | the loops append the removal rows, then the addition rows |
| RoutesEvents.Relink | backend/api/routes/events.py:292-333 | the deletions and insertions leave the links equal to `RelinkedLinks` |
| RoutesEvents.RelinkedOnlyListed | backend/api/routes/events.py:292-307 | after the replacement every animal of the event is listed |
| RoutesEvents.RelinkedMember | backend/api/routes/events.py:292-333 | every link of the event after the replacement names a listed animal |
| RoutesEvents.RelinkedAllListed | backend/api/routes/events.py:320-333 | every listed animal is linked to the event after the replacement |
| RoutesEvents.RelinkSetsAnimals | backend/api/routes/events.py:292-333 | after the replacement the event's animals are exactly the listed ones, and links of other events are untouched |
| RoutesEvents.RelinkKeepsLinksLawful | backend/api/routes/events.py:292-333 | with pairwise different listed ids, replacing the animals keeps the links lawful and one per pair |
| RoutesEvents.ReassignCheck | backend/api/routes/events.py:435-468 | a pass guarantees the event exists and the animals are valid (of any zoo) |
| RoutesEvents.ReassignClashIff | backend/api/routes/events.py:448-468 | the clash check refuses exactly when a listed animal has a link to another event of the zoo overlapping this event; the current event is always excluded |
| RoutesEvents.ReassignAnimals | backend/api/routes/events.py:428-525 | the outcome is the check; a refusal writes nothing; a pass replaces the event's animals (checked-out links may be deleted) and writes the rows below |
| RoutesEvents.ApplyReassign | backend/api/routes/events.py:470-520 | the writes of reassignment once every check passed |
| RoutesEvents.BatchMembers | backend/api/routes/events.py:502-520 | every row of a batch is about a listed animal |
| RoutesEvents.ReassignAuditsOnlyRemoved | backend/api/routes/events.py:502-520 | as written, a reassignment logs "removed" and then "added" for the removed animals only, none of them listed; newly added animals get no row |
| RoutesEvents.GetUpcomingLiveEvents | backend/api/routes/events.py:87-112 | of the events with end > now, live holds those with start <= now <= end and upcoming holds all the others, each in order |
| RoutesEvents.Split | backend/api/routes/events.py:105-110 | the loop appends each entry to exactly one of the two lists, keeping order |
| RoutesEvents.LiveUpcomingPartition | backend/api/routes/events.py:87-112 | every listed entry has end > now; each event not yet ended lands in exactly one list, and live exactly when it has started |
| RoutesAnimals.InsertNewest | backend/api/routes/animals.py:74 | inserting into a newest-first list keeps it newest first and adds exactly the one row |
| RoutesAnimals.SortNewest | backend/api/routes/animals.py:74 | `ORDER BY changed_at DESC` is newest first and a permutation of its input |
| RoutesAnimals.FeedExact | backend/api/routes/animals.py:62-76 | the feed is newest first and holds exactly the audit rows with one of the six actions, each as often as stored |
| RoutesAnimals.GetFeed | backend/api/routes/animals.py:60-89 | one entry per feed row, in feed order, each with one of the six actions, newest first |
| RoutesAnimals.FeedItems | backend/api/routes/animals.py:79-87 | the loop builds one entry per row, carrying the row's action and time |
| RoutesAnimals.TimePartition | backend/api/routes/animals.py:201-207 | every event takes exactly one branch: current when start <= now <= end, past exactly when end < now, upcoming exactly when now < start and now <= end, which is now < start for a well-formed window |
| RoutesAnimals.SplitByTime | backend/api/routes/animals.py:201-207 | the loop puts each entry in the first list whose test it meets, keeping order |
| RoutesAnimals.SplitByTimeCovers | backend/api/routes/animals.py:201-207 | the three lists together have as many entries as the input |
| RoutesAnimals.GetAnimalDetails | backend/api/routes/animals.py:100-224 | 404 exactly for a missing animal; otherwise the animal's events split into current, past and upcoming, today's count of links and their summed duration, and the activity total summed over every link of those events, of whatever animal |
| RoutesAnimals.DetailsPageLists | backend/api/routes/animals.py:134-207 | an event appears in one of the three lists exactly when the animal is linked to it |
| RoutesAnimals.GetRestingAnimals | backend/api/routes/animals.py:227-236 | the statuses whose description contains "resting", in any case, in order; an invalid stored status fails the request |
| RoutesAnimals.RestingExact | backend/api/routes/animals.py:227-236 | an animal is listed as resting exactly when it is checked in, under both quotas and still resting |
| RoutesAnimals.OutRows | backend/api/routes/animals.py:263-273 | one joined row per link checked out and not checked in whose animal is stored, with that animal |
| RoutesAnimals.CheckedOutIff | backend/api/routes/animals.py:263-273 | with unique ids, an animal is listed exactly when it has a link checked out and not yet checked in |
| RoutesAnimals.DetailsFor | backend/api/routes/animals.py:283-290 | the first entry of the event; none exactly when no entry has it |
| RoutesAnimals.GetCheckedOutAnimals | backend/api/routes/animals.py:261-298 | one row per joined row, in order, with its animal and the details of its link's event, or none when that event is not stored |
| RoutesAnimals.PairWithEvents | backend/api/routes/animals.py:281-296 | the loop pairs each joined row with the first loaded entry of its event |
| RoutesAnimals.DetailsForJoins | backend/api/routes/animals.py:275-290 | the entry found for a link is the details of its stored event |
| RoutesAnimals.KeepOthers | backend/api/routes/animals.py:347-365 | the deletion loop leaves exactly the rows not selected, in order |
| RoutesAnimals.Without | backend/api/routes/animals.py:367-368 | deleting one row shortens the table by one |
| RoutesAnimals.DeleteAnimal | backend/api/routes/animals.py:326-371 | 401 without delete_animals and 404 for a missing animal, both writing nothing; otherwise the "deleted" audit row is written and then removed by the cascade along with the animal's links, audit rows and health logs, and the animal's row goes |
| RoutesAnimals.CascadeLeavesNoReference | backend/api/routes/animals.py:337-365 | after the cascade no link, audit row or health log refers to the animal, the deletion's own audit row included; every other row stays |
| RoutesAnimals.WithoutRemovesOnly | backend/api/routes/animals.py:367-368 | with unique ids, removing the animal's row leaves exactly the other animals |
| RoutesAnimals.UpdateAnimal | backend/api/routes/animals.py:374-398 | 401 without update_animals and 404 for a missing animal, both writing nothing; otherwise one audit row per changed field, and every field takes the body's value |
| RoutesAnimals.FindLog | backend/api/routes/animals.py:512-516 | the first health log with that id; none exactly when no log has it |
| RoutesAnimals.HealthLogCheck | backend/api/routes/animals.py:503-523 | a pass gives the position of the log with that id |
| RoutesAnimals.OnlyLoggerEdits | backend/api/routes/animals.py:503-523 | an edit passes exactly with add_animal_health_log, an existing animal, an existing log and the caller as the logger; the log is found by id alone, whichever animal it belongs to |
| RoutesAnimals.UpdateHealthLog | backend/api/routes/animals.py:495-543 | a refusal writes nothing; a pass replaces the details and appends one health_log_updated row holding the old and the new details |
| RoutesUsers.LoginLookupOrder | backend/api/routes/users.py:30-57 | the name is tried as a username first and as an email second; success needs the password to check; every refusal is the same 401 |
| RoutesUsers.CreateUser | backend/api/routes/users.py:72-99 | a taken username is refused first and a taken email second, both with 400; otherwise a visitor of the main zoo with tier 1 is appended |
| RoutesUsers.CreateUserKeepsLoginsUnique | backend/api/routes/users.py:74-81 | registration passes exactly when neither the username nor the email is taken, and keeps both unique |
| RoutesUsers.FindUserAt | backend/db/users.py:12-14 | the position of the user with the id; none exactly when no user has it |
| RoutesUsers.UpdateUser | backend/api/routes/users.py:102-111 | only the caller's first and last names change |
| RoutesUsers.TierCheck | backend/api/routes/users.py:213-228 | a pass gives the position of the user |
| RoutesUsers.UpdateUserTier | backend/api/routes/users.py:206-231 | 401 without update_user_tier, then 400 for a tier outside 1..4, then 404; on success only that user's tier changes |
| RoutesUsers.TierStaysInRange | backend/api/routes/users.py:219-223 | a tier outside 1..4 is refused whenever the caller may set tiers, so stored tiers stay within 1..4 |
| RoutesUsers.DeleteUserCheck | backend/api/routes/users.py:159-170 | a pass gives the position of the user |
| RoutesUsers.DeleteUser | backend/api/routes/users.py:157-174 | on success the user's row goes and every other row stays; a refusal writes nothing |
| RoutesUsers.OnlySelfDeletion | backend/api/routes/users.py:159-166 | deletion passes exactly with delete_users, the caller's own id and an existing row; anyone else's id gets 401, even for an admin |
| RoutesUsers.GetUser | backend/api/routes/users.py:124-154 | 404 exactly for a missing user; otherwise the events the user is assigned to, split into current, past and upcoming |
| RoutesUsers.UserPageLists | backend/api/routes/users.py:130-147 | an event appears in one of the three lists exactly when the user is assigned to it |
| EventSchema.SecondOfDay | frontend/src/api/schemas/event.ts:37-39 | the clock time of a date is a second of the day, 0..86399 |
| EventSchema.CombineParts | frontend/src/api/schemas/event.ts:33-50 | the combined time falls on the date's day at the time's clock time, to the second; combining again changes nothing |
| EventSchema.CombineOrder | frontend/src/api/schemas/event.ts:33-50 | a later day always gives a later combined time; on the same day the clock times decide |
| EventSchema.ValidateIff | frontend/src/api/schemas/event.ts:4-29 | the schema passes exactly when every field is filled in, the name has at least 3 and the description at least 10 characters, from < to, and both ends are later than now minus one day |
| EventSchema.DatePathOnlyFromRange | frontend/src/api/schemas/event.ts:11-24 | only the date range reports issues on the path "date" |
| EventSchema.RefinementsReported | frontend/src/api/schemas/event.ts:16-24 | with both dates picked, each of the three refinement messages is reported exactly when its comparison fails |
| EventSchema.EndRefinementImplied | frontend/src/api/schemas/event.ts:16-24 | the third refinement never fails alone |
| EventSchema.Transform | frontend/src/api/schemas/event.ts:31-60 | the body carries the form's texts; start_at takes its day from date.from and its clock time from startTime, and end_at takes its day from date.to and its clock time from endTime |
| EventSchema.AcceptedTimes | frontend/src/api/schemas/event.ts:16-50 | an accepted form starts no earlier than yesterday's date, and the end's day is no earlier than the start's; the event ends after it starts when the days differ, and on the same day exactly when the end time is later; the two times are never compared with each other |

## Left out

- Floating point: `rest_time` and `max_daily_checkout_hours` are hours in the code. The model uses `rest_time` as whole seconds and the hour quota as whole hours times 3600. Durations reported in hours (`/ 3600`) are returned in seconds.
- Time: the clock is the `now` parameter, read once per request; the code reads it several times. "Today" is the parameter `isToday`, in place of the SQL `DATE(checked_in) == date.today()`. JavaScript `Date` is local wall-clock milliseconds from a midnight, with no time zones or daylight-saving gaps. String lengths in the form count characters, not UTF-16 units.
- Database mechanics: async sessions, joins, `joinedload` and `refresh` are not modelled. Each handler is one all-or-nothing step, and intermediate commits are not visible. `IntegrityError` is modelled only where the code catches it (seeding). `ORDER BY changed_at DESC` may order rows with the same time in any order. The model picks one such order (insertion of each row in turn).
- The SQL `IN` and `JOIN` queries return each stored row once. The joined `animal` and `user` objects of the responses are not carried. `AnimalName` reads "" for a link whose animal is missing.
- Audit descriptions are built from the actor's names as in the code. `str()` of field values and ASCII-only lower-casing stand in for Python's text formats and `str.lower`.
- `Utils.TimeSinceText`: works on a normalised timedelta at whole-second precision. Microseconds are dropped.
- `RoutesAnimals.GetFeed`: an entry carries the audit action, not its display text. `snake_to_capital_case` is not part of this model.
- `RoutesAnimals.GetAnimalDetails`: the zoo row of the answer is left out.
- `RoutesAnimals.GetRestingAnimals`: returns the resting statuses only. The per-animal health logs and the weekly activity total over all checked-in links are not part of the answer.
- `RoutesUsers.Login`: password verification is the parameter `verify`. Token creation (JWT) is left out.
- `RoutesUsers.CreateUser`: the database-assigned id, the password hash and the main zoo are parameters. The "visitor" role is referred to by name, without looking up its row.
- `RoutesUsers.UpdateUser`: requires the caller's row to be stored, because the code loads the caller from the table before the handler runs.
- `RoutesUsers.DeleteUser`: the database's own cascades on the user's links are not modelled.
- Operations outside this model:
  - `update_user_role`, `update_user_group`, `update_password`, `get_users`, `get_handlers`;
  - `delete_event`, `read_event`, `reassign_handlers_to_event`, `add_comment_to_event`;
  - `create_animal`, `mark_animal_unavailable`, `mark_animal_available`, `create_animal_health_log`, `get_animal_audits`;
  - event-type and group CRUD;
  - S3 upload, CSV reports, e-mails, seeding wiring and migrations.

  They are plumbing around the modelled rules: plain role checks, or reads and writes with no decision of their own. `toggle_animal_availability`, which the mark routes call, is modelled.
- The `id` column of animal links is not modelled, because the code uses it only in `count()`.
